/** Liquidity shares: deposit, request, cancel and withdraw against tracked equity. */
module LpLedger {
  import opened Numbers
  import opened Nonlinear
  import opened WideMath
  import opened Position
  import opened Settlement
  import opened Accrual
  import opened Sums

  const MINIMUM_LIQUIDITY: int := 1_000_000

  datatype SharesMinted = SharesMinted(toDepositor: u128, lockedForever: u128)

  datatype Request = Request(shares: u64, requestedAt: i64, requestedSlot: u64)

  /** The pool account, its vault balance, and every share account keyed by owner. */
  datatype LpState = LpState(
    pool: PoolState, vault: u64, locked: u64,
    owned: map<nat, u64>, escrow: map<nat, u64>, requests: map<nat, Request>)

  // ---- crates/risk/src/pool.rs ----

  function SharesForDeposit(netDeposit: u128, totalShares: u128, aum: u128): Result<SharesMinted, RiskError> {
    if netDeposit == 0 then Failure(NegativeAmount)
    else if totalShares == 0 then
      if netDeposit <= MINIMUM_LIQUIDITY then Failure(EmptyPool)
      else Success(SharesMinted(netDeposit - MINIMUM_LIQUIDITY, MINIMUM_LIQUIDITY))
    else if aum == 0 then Failure(EmptyPool)
    else
      var shares :- FloorMulDiv(netDeposit, totalShares, aum);
      if shares == 0 then Failure(NegativeAmount) else Success(SharesMinted(shares, 0))
  }

  function AssetsForShares(shares: u128, totalShares: u128, aum: u128): Result<u128, RiskError> {
    if totalShares == 0 then Failure(EmptyPool)
    else if shares > totalShares then Failure(MathOverflow)
    else FloorMulDiv(shares, aum, totalShares)
  }

  function FlowFee(amount: u128, feeBps: u16): Result<u128, RiskError> {
    if feeBps > BPS_DENOMINATOR then Failure(InvalidBasisPoints) else CeilMulDiv(amount, feeBps, BPS_DENOMINATOR)
  }

  function UtilizationWithinCap(reserved: u128, aum: u128, maxBps: u16): Result<bool, RiskError> {
    if maxBps > BPS_DENOMINATOR then Failure(InvalidBasisPoints)
    else if reserved == 0 then Success(true)
    else if aum == 0 then Success(false)
    else Success(CmpProducts(reserved, BPS_DENOMINATOR, maxBps, aum) != Greater)
  }

  /**
   * A first deposit is credited one for one, less a million shares locked for good; a later one mints the floor of its
   * proportional share, and never nothing.
   */
  lemma SharesExact(net: u128, totalShares: u128, aum: u128)
    ensures var r := SharesForDeposit(net, totalShares, aum);
            if net == 0 then r == Failure(NegativeAmount)
            else if totalShares == 0 then
              r == (if net <= 1_000_000 then Failure(EmptyPool) else Success(SharesMinted(net - 1_000_000, 1_000_000)))
            else if aum == 0 then r == Failure(EmptyPool)
            else if net * totalShares < aum then r == Failure(NegativeAmount)
            else if net * totalShares < U128_LIMIT * aum then
              && r.Success? && r.value.lockedForever == 0
              && r.value.toDepositor * aum <= net * totalShares < (r.value.toDepositor + 1) * aum
            else r == Failure(MathOverflow)
  {
    hide FloorMulDiv;
    if net != 0 && totalShares != 0 && aum != 0 {
      MulDivRounds(net, totalShares, aum);
      MulMono(1, U128_LIMIT, aum);
      var shares := FloorMulDiv(net, totalShares, aum);
      if shares.Success? && 0 < shares.value {
        MulMono(1, shares.value, aum);
      }
    }
  }

  /** Shares redeem for the floor of their proportional part of the equity, whatever it is. */
  lemma AssetsExact(shares: u128, totalShares: u128, aum: u128)
    ensures var r := AssetsForShares(shares, totalShares, aum);
            if totalShares == 0 then r == Failure(EmptyPool)
            else if totalShares < shares then r == Failure(MathOverflow)
            else r.Success? && r.value * totalShares <= shares * aum < (r.value + 1) * totalShares
  {
    hide FloorMulDiv;
    if 0 < totalShares && shares <= totalShares {
      MulDivRounds(shares, aum, totalShares);
      MulMono(shares, totalShares, aum);
      MulStrict(aum, U128_LIMIT, totalShares);
    }
  }

  /** A flow fee is the ceiling of its basis points of the amount. */
  lemma FlowFeeExact(amount: u128, feeBps: u16)
    ensures var r := FlowFee(amount, feeBps);
            if 10_000 < feeBps then r == Failure(InvalidBasisPoints)
            else r.Success? && (r.value - 1) * 10_000 < amount * feeBps <= r.value * 10_000 && r.value <= amount
  {
    hide CeilMulDiv;
    if feeBps <= 10_000 {
      MulDivRounds(amount, feeBps, BPS_DENOMINATOR);
      MulMono(feeBps, 10_000, amount);
      MulMono(amount, U128_LIMIT - 1, 10_000);
    }
  }

  /** Utilisation is within a cap exactly when reserves in basis points are at most the cap times the equity. */
  lemma CapExact(reserved: u128, aum: u128, maxBps: u16)
    ensures UtilizationWithinCap(reserved, aum, maxBps)
            == if 10_000 < maxBps then Failure(InvalidBasisPoints)
               else Success(reserved * 10_000 <= maxBps * aum)
  {
    MulMono(0, maxBps, aum);
  }

  // ---- programs/sakura-perps/src/pool.rs ----

  function Liabilities(p: PoolState): int {
    p.quoteDeposited + p.lockedQuote + p.pendingProtocolFees
  }

  function AssertSolvent(vault: u64, p: PoolState): Check<PerpsError> {
    if Liabilities(p) >= U64_LIMIT then Fail(Risk(MathOverflow)) else Need(vault >= Liabilities(p), VaultInsolvent)
  }

  /** The utilisation ceiling in force, absolutely. */
  function AssertCeiling(p: PoolState): Check<PerpsError> {
    var within := UtilizationWithinCap(p.reservedQuote, p.quoteDeposited, p.maxUtilizationBps);
    if within.Failure? then Fail(MapRiskError(within.error)) else Need(within.value, UtilizationTooHigh)
  }

  function AssertLpValuationAvailable(p: PoolState): Check<PerpsError> {
    Need(p.lockedQuote == 0 && p.reservedQuote == 0, LpValuationUnavailable)
  }

  function Held(accounts: map<nat, u64>, owner: nat): u64 {
    if owner in accounts then accounts[owner] else 0
  }

  datatype DepositTerms = DepositTerms(fee: u64, deposited: u64, toDepositor: u64, lockedForever: u64, minted: u64)

  /** The fee taken and the shares minted for what actually arrived. */
  function PriceDeposit(p: PoolState, delivered: u64, minSharesOut: u64): Result<DepositTerms, PerpsError> {
    if delivered == 0 then Failure(ZeroAmount) else
    var fee128 :- Mapped(FlowFee(delivered, p.depositFeeBps));
    var fee :- CheckedU64(fee128);
    var net :- CheckedU64(delivered - fee);
    :- Need(net > 0, ZeroAmount);
    var deposited :- CheckedU64(p.quoteDeposited + net);
    :- Need(deposited <= p.maxAumQuote, PoolCapReached);
    var shares :- Mapped(SharesForDeposit(net, p.totalShares, p.quoteDeposited));
    var toDepositor :- CheckedU64(shares.toDepositor);
    var minted :- CheckedU64(shares.toDepositor + shares.lockedForever);
    :- Need(toDepositor >= minSharesOut, SlippageExceeded);
    :- Need(toDepositor > 0, ZeroSharesMinted);
    Success(DepositTerms(fee, deposited, toDepositor, shares.lockedForever, minted))
  }

  /** The shares a net deposit would mint to its depositor. */
  function Minted(p: PoolState, net: int): int {
    if p.totalShares == 0 then net - 1_000_000
    else if p.quoteDeposited == 0 then 0
    else net * p.totalShares / p.quoteDeposited
  }

  /** A delivery the pool takes: something is left after the fee, under the cap, and worth the shares asked for. */
  predicate Depositable(p: PoolState, delivered: int, minSharesOut: int) {
    var net := delivered - CeilDiv(delivered * p.depositFeeBps, 10_000);
    && 0 < net && p.depositFeeBps <= 10_000
    && p.quoteDeposited + net <= p.maxAumQuote
    && 0 < Minted(p, net) && minSharesOut <= Minted(p, net)
    && Minted(p, net) + (if p.totalShares == 0 then 1_000_000 else 0) < U64_LIMIT
  }

  /** What a deposit is charged and credited, exactly, and when it is. */
  lemma DepositPricedIff(p: PoolState, delivered: u64, minSharesOut: u64)
    ensures var r := PriceDeposit(p, delivered, minSharesOut);
            var fee := CeilDiv(delivered * p.depositFeeBps, 10_000);
            var (minted, locked) := (Minted(p, delivered - fee), if p.totalShares == 0 then 1_000_000 else 0);
            if Depositable(p, delivered, minSharesOut)
            then r.Success?
                 && r.value == DepositTerms(fee, p.quoteDeposited + delivered - fee, minted, locked, minted + locked)
            else r.Failure?
  {
    hide SharesForDeposit, FlowFee, Minted;
    FlowFeeExact(delivered, p.depositFeeBps);
    if p.depositFeeBps <= 10_000 {
      var fee := FlowFee(delivered, p.depositFeeBps).value;
      CeilOnce(fee, delivered * p.depositFeeBps, 10_000);
      if 0 < delivered - fee {
        SharesAreMinted(p, delivered - fee);
      }
    }
  }

  lemma SharesAreMinted(p: PoolState, net: u64)
    requires 0 < net
    ensures var r := SharesForDeposit(net, p.totalShares, p.quoteDeposited);
            if 0 < Minted(p, net)
            then r.Success?
                 && r.value == SharesMinted(Minted(p, net), if p.totalShares == 0 then 1_000_000 else 0)
            else r.Failure?
  {
    hide SharesForDeposit;
    SharesExact(net, p.totalShares, p.quoteDeposited);
    if 0 < p.totalShares && 0 < p.quoteDeposited {
      var (n, q) := (net * p.totalShares, p.quoteDeposited);
      MulMono(net, U64_LIMIT, p.totalShares);
      MulMono(1, q, U128_LIMIT);
      MulMono(0, net, p.totalShares);
      DivGalois(1, n, q);
      var r := SharesForDeposit(net, p.totalShares, p.quoteDeposited);
      if r.Success? {
        DivUnique(n, q, r.value.toDepositor, n - r.value.toDepositor * q);
      }
    }
  }

  lemma CeilOnce(q: int, n: int, d: int)
    requires 0 < d && (q - 1) * d < n <= q * d
    ensures CeilDiv(n, d) == q
  {
    DivUnique(-n, d, -q, q * d - n);
  }

  /** `amount` is what the depositor asked to send, `delivered` what the vault measured arriving. */
  function Deposited(s: LpState, owner: nat, paused: bool, amount: u64, delivered: u64, minSharesOut: u64, now: i64)
    : Result<LpState, PerpsError>
  {
    if paused then Failure(DepositsPaused) else
    :- Need(amount > 0, ZeroAmount);
    :- AssertLpValuationAvailable(s.pool);
    var checkpointed :- Checkpointed(s.pool, now);
    var p := checkpointed.0;
    var vault :- CheckedU64(s.vault + delivered);
    var terms :- PriceDeposit(p, delivered, minSharesOut);
    var held :- CheckedU64(Held(s.owned, owner) + terms.toDepositor);
    var locked :- CheckedU64(s.locked + terms.lockedForever);
    var fees :- CheckedU64(p.pendingProtocolFees + terms.fee);
    var totalShares :- CheckedU64(p.totalShares + terms.minted);
    var p' := p.(quoteDeposited := terms.deposited, pendingProtocolFees := fees, totalShares := totalShares);
    :- AssertSolvent(vault, p');
    :- Need(NotWorsened(p'.reservedQuote, p'.quoteDeposited, p.reservedQuote, p.quoteDeposited), UtilizationTooHigh);
    Success(s.(pool := p', vault := vault, locked := locked, owned := s.owned[owner := held]))
  }

  function Requested(s: LpState, owner: nat, shares: u64, now: i64, slot: u64): Result<LpState, PerpsError> {
    if owner in s.requests || owner in s.escrow then Failure(RequestExists) else
    :- Need(shares > 0, ZeroAmount);
    :- Need(shares <= Held(s.owned, owner), InsufficientTokens);
    var _ :- CheckedI64(now + s.pool.withdrawDelaySeconds);
    Success(s.(owned := s.owned[owner := Held(s.owned, owner) - shares],
               escrow := s.escrow[owner := shares],
               requests := s.requests[owner := Request(shares, now, slot)]))
  }

  function Cancelled(s: LpState, owner: nat): Result<LpState, PerpsError> {
    if owner !in s.requests || owner !in s.escrow then Failure(NoRequest) else
    var shares := s.requests[owner].shares;
    :- Need(s.escrow[owner] == shares, EscrowNotEmpty);
    :- Need(shares > 0, ZeroAmount);
    var held :- CheckedU64(Held(s.owned, owner) + shares);
    Success(s.(owned := s.owned[owner := held], escrow := s.escrow - {owner}, requests := s.requests - {owner}))
  }

  /** Only an empty escrow that no request leans on may be closed by itself. */
  function StaleClosed(s: LpState, owner: nat): Result<LpState, PerpsError> {
    if owner !in s.escrow then Failure(NoRequest) else
    :- Need(s.escrow[owner] == 0, EscrowNotEmpty);
    :- Need(owner !in s.requests, WithdrawRequestStillOpen);
    Success(s.(escrow := s.escrow - {owner}))
  }

  datatype WithdrawTerms = WithdrawTerms(gross: u64, fee: u64, net: u64)

  /** What a request redeems for once both of its clocks have run. */
  function PriceWithdrawal(p: PoolState, request: Request, minAmountOut: u64, now: i64, slot: u64)
    : Result<WithdrawTerms, PerpsError>
  {
    if slot <= request.requestedSlot then Failure(WithdrawTooSoon) else
    var executableAt :- CheckedI64(request.requestedAt + p.withdrawDelaySeconds);
    :- Need(now >= executableAt, WithdrawTooSoon);
    var gross128 :- Mapped(AssetsForShares(request.shares, p.totalShares, p.quoteDeposited));
    var gross :- CheckedU64(gross128);
    :- Need(gross > 0, ZeroAmount);
    var fee128 :- Mapped(FlowFee(gross, p.withdrawFeeBps));
    var fee :- CheckedU64(fee128);
    var net :- CheckedU64(gross - fee);
    :- Need(net > 0, ZeroAmount);
    :- Need(net >= minAmountOut, SlippageExceeded);
    :- Need(gross <= p.quoteDeposited, InsufficientPoolEquity);
    var within :- Mapped(UtilizationWithinCap(p.reservedQuote, p.quoteDeposited - gross, p.maxUtilizationBps));
    :- Need(within, UtilizationTooHigh);
    Success(WithdrawTerms(gross, fee, net))
  }

  /** What a request's shares redeem for, before the fee. */
  function Redeemed(p: PoolState, shares: int): int {
    if p.totalShares == 0 then 0 else shares * p.quoteDeposited / p.totalShares
  }

  /** A request that can be redeemed: both clocks have run, the fee leaves something, and the ceiling allows it. */
  predicate Redeemable(p: PoolState, request: Request, minAmountOut: int, now: int, slot: int) {
    var gross := Redeemed(p, request.shares);
    var net := gross - CeilDiv(gross * p.withdrawFeeBps, 10_000);
    && request.requestedSlot < slot && request.requestedAt + p.withdrawDelaySeconds <= now
    && 0 < p.totalShares && request.shares <= p.totalShares
    && p.withdrawFeeBps <= 10_000 && p.maxUtilizationBps <= 10_000
    && 0 < net && minAmountOut <= net
    && p.reservedQuote * 10_000 <= p.maxUtilizationBps * (p.quoteDeposited - gross)
  }

  /** What a withdrawal pays and keeps as its fee, exactly, and when it does. */
  lemma WithdrawPricedIff(p: PoolState, request: Request, minAmountOut: u64, now: i64, slot: u64)
    ensures var r := PriceWithdrawal(p, request, minAmountOut, now, slot);
            var gross := Redeemed(p, request.shares);
            var fee := CeilDiv(gross * p.withdrawFeeBps, 10_000);
            if Redeemable(p, request, minAmountOut, now, slot)
            then r.Success? && r.value == WithdrawTerms(gross, fee, gross - fee)
            else r.Failure?
  {
    hide AssetsForShares, FlowFee, UtilizationWithinCap, Redeemed, CeilDiv;
    AssetsExact(request.shares, p.totalShares, p.quoteDeposited);
    if 0 < p.totalShares && request.shares <= p.totalShares {
      RedeemedIsFloor(p, request.shares);
      var gross: u128 := Redeemed(p, request.shares);
      FlowFeeExact(gross, p.withdrawFeeBps);
      if p.withdrawFeeBps <= 10_000 {
        CeilOnce(FlowFee(gross, p.withdrawFeeBps).value, gross * p.withdrawFeeBps, 10_000);
      }
      CapExact(p.reservedQuote, p.quoteDeposited - gross, p.maxUtilizationBps);
    }
  }

  lemma RedeemedIsFloor(p: PoolState, shares: u64)
    requires 0 < p.totalShares && shares <= p.totalShares
    ensures 0 <= Redeemed(p, shares) <= p.quoteDeposited
    ensures AssetsForShares(shares, p.totalShares, p.quoteDeposited) == Success(Redeemed(p, shares))
  {
    hide AssetsForShares;
    AssetsExact(shares, p.totalShares, p.quoteDeposited);
    var (n, gross) := (shares * p.quoteDeposited,
                       AssetsForShares(shares, p.totalShares, p.quoteDeposited).value);
    DivUnique(n, p.totalShares, gross, n - gross * p.totalShares);
    MulMono(shares, p.totalShares, p.quoteDeposited);
    MulCancelLeq(gross, p.quoteDeposited, p.totalShares);
  }

  function Withdrawn(s: LpState, owner: nat, paused: bool, minAmountOut: u64, now: i64, slot: u64)
    : Result<LpState, PerpsError>
  {
    if owner !in s.requests || owner !in s.escrow then Failure(NoRequest) else
    :- Need(!paused, WithdrawalsPaused);
    :- AssertLpValuationAvailable(s.pool);
    var checkpointed :- Checkpointed(s.pool, now);
    var (p, request) := (checkpointed.0, s.requests[owner]);
    var terms :- PriceWithdrawal(p, request, minAmountOut, now, slot);
    :- Need(request.shares <= s.escrow[owner], InsufficientTokens);
    :- Need(terms.net <= s.vault, InsufficientTokens);
    :- Need(s.escrow[owner] == request.shares, EscrowNotEmpty);
    var deposited :- CheckedU64(p.quoteDeposited - terms.gross);
    var fees :- CheckedU64(p.pendingProtocolFees + terms.fee);
    var totalShares :- CheckedU64(p.totalShares - request.shares);
    var p' := p.(quoteDeposited := deposited, pendingProtocolFees := fees, totalShares := totalShares);
    :- AssertSolvent(s.vault - terms.net, p');
    :- AssertCeiling(p');
    Success(s.(pool := p', vault := s.vault - terms.net, escrow := s.escrow - {owner},
               requests := s.requests - {owner}))
  }

  datatype Event =
    | Deposit(owner: nat, paused: bool, amount: u64, delivered: u64, minSharesOut: u64, now: i64)
    | RequestWithdraw(owner: nat, shares: u64, now: i64, slot: u64)
    | CancelWithdraw(owner: nat)
    | Withdraw(owner: nat, paused: bool, minAmountOut: u64, now: i64, slot: u64)
    | CloseStaleEscrow(owner: nat)
    /** Share tokens moving between owners, outside the program. */
    | Transfer(from: nat, to: nat, shares: u64)
    /** Share tokens sent straight to a provider's escrow account, outside the program. */
    | SendToEscrow(from: nat, owner: nat, shares: u64)
    /** Share tokens sent straight to the account of the locked minimum, outside the program. */
    | SendToLocked(from: nat, shares: u64)
    /** Share tokens burned by their holder, outside the program. */
    | BurnShares(from: nat, shares: u64)
    /** Collateral sent straight to the vault, outside the program. */
    | Donate(amount: u64)
    | SetLimits(maxAumQuote: u64, maxUtilizationBps: u16)

  const M5_MAX_UTILIZATION_BPS: int := 2_000

  function Step(s: LpState, e: Event): Result<LpState, PerpsError> {
    match e
    case Deposit(owner, paused, amount, delivered, minOut, now) =>
      Deposited(s, owner, paused, amount, delivered, minOut, now)
    case RequestWithdraw(owner, shares, now, slot) => Requested(s, owner, shares, now, slot)
    case CancelWithdraw(owner) => Cancelled(s, owner)
    case Withdraw(owner, paused, minOut, now, slot) => Withdrawn(s, owner, paused, minOut, now, slot)
    case CloseStaleEscrow(owner) => StaleClosed(s, owner)
    case SendToEscrow(from, owner, shares) =>
      :- Need(owner in s.escrow, NoRequest);
      :- Need(shares <= Held(s.owned, from), InsufficientTokens);
      var received :- CheckedU64(s.escrow[owner] + shares);
      Success(s.(owned := s.owned[from := Held(s.owned, from) - shares], escrow := s.escrow[owner := received]))
    case SendToLocked(from, shares) =>
      :- Need(shares <= Held(s.owned, from), InsufficientTokens);
      var received :- CheckedU64(s.locked + shares);
      Success(s.(owned := s.owned[from := Held(s.owned, from) - shares], locked := received))
    case BurnShares(from, shares) =>
      :- Need(shares <= Held(s.owned, from), InsufficientTokens);
      Success(s.(owned := s.owned[from := Held(s.owned, from) - shares]))
    case Transfer(from, to, shares) =>
      :- Need(shares <= Held(s.owned, from), InsufficientTokens);
      var sent := s.owned[from := Held(s.owned, from) - shares];
      var received :- CheckedU64(Held(sent, to) + shares);
      Success(s.(owned := sent[to := received]))
    case Donate(amount) =>
      var vault :- CheckedU64(s.vault + amount);
      Success(s.(vault := vault))
    case SetLimits(maxAum, maxBps) =>
      :- Need(0 < maxBps <= M5_MAX_UTILIZATION_BPS, UtilizationCeilingTooHigh);
      Success(s.(pool := s.pool.(maxAumQuote := maxAum, maxUtilizationBps := maxBps)))
  }

  function Run(s: LpState, events: seq<Event>): Result<LpState, PerpsError> {
    if events == [] then
      Success(s)
    else
      var before :- Run(s, events[..|events| - 1]);
      Step(before, events[|events| - 1])
  }

  // ---- Invariants ----

  function Tokens(): u64 -> nat {
    (x: u64) => x
  }

  /** The share tokens in existence. */
  ghost function Supply(s: LpState): int {
    Total(s.owned, Tokens()) + Total(s.escrow, Tokens()) + s.locked
  }

  /** No more tokens than recorded shares, every request covered by its escrow, and the pool solvent. */
  ghost predicate Valid(s: LpState) {
    && Supply(s) <= s.pool.totalShares
    && (forall o :: o in s.requests ==> o in s.escrow && 0 < s.requests[o].shares <= s.escrow[o])
    && (s.pool.totalShares > 0 ==> MINIMUM_LIQUIDITY <= s.locked)
    && (s.pool.totalShares == 0 ==> s.pool.quoteDeposited == 0)
    && Liabilities(s.pool) <= s.vault
  }

  lemma HeldReplaced(accounts: map<nat, u64>, owner: nat, amount: u64)
    ensures Total(accounts[owner := amount], Tokens()) == Total(accounts, Tokens()) - Held(accounts, owner) + amount
    ensures Held(accounts, owner) <= Total(accounts, Tokens())
  {
    hide Total;
    if owner in accounts {
      TotalReplace(accounts, owner, amount, Tokens());
    } else {
      TotalInsert(accounts, owner, amount, Tokens());
    }
  }

  lemma CheckpointKeepsLedger(p: PoolState, now: i64)
    requires Checkpointed(p, now).Success?
    ensures var p' := Checkpointed(p, now).value.0;
            p' == p.(utilizationIntegral := p'.utilizationIntegral, utilizationLastTs := p'.utilizationLastTs,
                     utilizationInitialized := p'.utilizationInitialized)
  {
  }

  /** Cross-multiplied equity per share; an empty side never lowers it. */
  predicate PriceNotLower(before: PoolState, after: PoolState) {
    after.quoteDeposited * before.totalShares >= before.quoteDeposited * after.totalShares
  }

  lemma DepositPrice(q: u128, shares: u128, net: u128)
    requires SharesForDeposit(net, shares, q).Success? && (shares == 0 ==> q == 0)
    ensures var minted := SharesForDeposit(net, shares, q).value;
            (q + net) * shares >= q * (shares + minted.toDepositor + minted.lockedForever)
  {
    if shares != 0 {
      MulDivExact(net, shares, q);
      var m := SharesForDeposit(net, shares, q).value.toDepositor;
      assert (q + net) * shares == q * shares + net * shares;
      assert q * (shares + m) == q * shares + q * m;
    }
  }

  lemma WithdrawPrice(q: u128, shares: u128, burned: u128)
    requires AssetsForShares(burned, shares, q).Success?
    ensures var gross := AssetsForShares(burned, shares, q).value;
            gross <= q && (q - gross) * shares >= q * (shares - burned) && q * burned < (gross + 1) * shares
  {
    MulDivExact(burned, q, shares);
    var gross := AssetsForShares(burned, shares, q).value;
    MulMono(burned, shares, q);
    MulCancelLeq(gross, q, shares);
    assert (q - gross) * shares == q * shares - gross * shares;
    assert q * (shares - burned) == q * shares - q * burned;
  }

  /** What every operation promises about solvency, price and the share count, whoever calls it. */
  ghost predicate Kept(s: LpState, s': LpState, donated: int, burned: int) {
    && Valid(s')
    && PriceNotLower(s.pool, s'.pool)
    && s'.vault - Liabilities(s'.pool) == s.vault - Liabilities(s.pool) + donated
    && s'.pool.totalShares - Supply(s') == s.pool.totalShares - Supply(s) + burned
    && (s.pool.totalShares > 0 ==> s'.pool.totalShares > 0)
  }

  lemma DepositTermsFair(p: PoolState, delivered: u64, minOut: u64)
    requires PriceDeposit(p, delivered, minOut).Success? && (p.totalShares == 0 ==> p.quoteDeposited == 0)
    ensures var t := PriceDeposit(p, delivered, minOut).value;
            && t.deposited + t.fee == p.quoteDeposited + delivered
            && t.minted == t.toDepositor + t.lockedForever && 0 < t.minted
            && t.lockedForever == (if p.totalShares == 0 then MINIMUM_LIQUIDITY else 0)
            && t.deposited * p.totalShares >= p.quoteDeposited * (p.totalShares + t.minted)
  {
    hide FlowFee;
    var t := PriceDeposit(p, delivered, minOut).value;
    DepositPrice(p.quoteDeposited, p.totalShares, t.deposited - p.quoteDeposited);
  }

  lemma DepositKept(s: LpState, owner: nat, paused: bool, amount: u64, delivered: u64, minOut: u64, now: i64)
    requires Valid(s) && Deposited(s, owner, paused, amount, delivered, minOut, now).Success?
    ensures Kept(s, Deposited(s, owner, paused, amount, delivered, minOut, now).value, 0, 0)
  {
    hide Total, Checkpointed, PriceDeposit;
    CheckpointKeepsLedger(s.pool, now);
    var s' := Deposited(s, owner, paused, amount, delivered, minOut, now).value;
    DepositTermsFair(Checkpointed(s.pool, now).value.0, delivered, minOut);
    HeldReplaced(s.owned, owner, s'.owned[owner]);
  }

  lemma EscrowReleased(s: LpState, owner: nat)
    requires Valid(s) && owner in s.escrow
    ensures Total(s.escrow, Tokens()) == s.escrow[owner] + Total(s.escrow - {owner}, Tokens())
    ensures s.escrow[owner] <= s.pool.totalShares - s.locked
    ensures Held(s.owned, owner) + s.escrow[owner] <= s.pool.totalShares
  {
    hide Total;
    TotalSplit(s.escrow, owner, Tokens());
    HeldReplaced(s.owned, owner, 0);
  }

  lemma WithdrawKept(s: LpState, owner: nat, paused: bool, minOut: u64, now: i64, slot: u64)
    requires Valid(s) && Withdrawn(s, owner, paused, minOut, now, slot).Success?
    ensures Kept(s, Withdrawn(s, owner, paused, minOut, now, slot).value, 0, 0)
  {
    hide Total, Checkpointed;
    CheckpointKeepsLedger(s.pool, now);
    EscrowReleased(s, owner);
    WithdrawPrice(s.pool.quoteDeposited, s.pool.totalShares, s.requests[owner].shares);
  }

  lemma RequestKept(s: LpState, owner: nat, shares: u64, now: i64, slot: u64)
    requires Valid(s) && Requested(s, owner, shares, now, slot).Success?
    ensures Kept(s, Requested(s, owner, shares, now, slot).value, 0, 0)
  {
    hide Total;
    HeldReplaced(s.owned, owner, Held(s.owned, owner) - shares);
    TotalInsert(s.escrow, owner, shares, Tokens());
  }

  lemma CancelKept(s: LpState, owner: nat)
    requires Valid(s) && Cancelled(s, owner).Success?
    ensures Kept(s, Cancelled(s, owner).value, 0, 0)
  {
    hide Total;
    EscrowReleased(s, owner);
    HeldReplaced(s.owned, owner, Held(s.owned, owner) + s.requests[owner].shares);
  }

  lemma TransferKept(s: LpState, from: nat, to: nat, shares: u64)
    requires Valid(s) && Step(s, Transfer(from, to, shares)).Success?
    ensures Kept(s, Step(s, Transfer(from, to, shares)).value, 0, 0)
  {
    hide Total;
    var sent := s.owned[from := Held(s.owned, from) - shares];
    HeldReplaced(s.owned, from, Held(s.owned, from) - shares);
    HeldReplaced(sent, to, Held(sent, to) + shares);
  }

  lemma SentKept(s: LpState, from: nat, owner: nat, shares: u64)
    requires Valid(s) && Step(s, SendToEscrow(from, owner, shares)).Success?
    ensures Kept(s, Step(s, SendToEscrow(from, owner, shares)).value, 0, 0)
  {
    hide Total;
    HeldReplaced(s.owned, from, Held(s.owned, from) - shares);
    var received: u64 := s.escrow[owner] + shares;
    TotalReplace(s.escrow, owner, received, Tokens());
  }

  lemma StaleKept(s: LpState, owner: nat)
    requires Valid(s) && StaleClosed(s, owner).Success?
    ensures Kept(s, StaleClosed(s, owner).value, 0, 0)
  {
    hide Total;
    EscrowReleased(s, owner);
  }

  /** What an event adds to the vault from outside. */
  function GiftOf(e: Event): nat {
    if e.Donate? then e.amount else 0
  }

  /** What an event destroys of the share tokens from outside. */
  function AshOf(e: Event): nat {
    if e.BurnShares? then e.shares else 0
  }

  /**
   * Each event keeps the ledger valid, never lowers the share price, and conserves the vault surplus and the share
   * tokens.
   */
  lemma StepKept(s: LpState, e: Event)
    requires Valid(s) && Step(s, e).Success?
    ensures Kept(s, Step(s, e).value, GiftOf(e), AshOf(e))
  {
    hide Total, Deposited, Requested, Cancelled, Withdrawn, StaleClosed, Checkpointed;
    match e
    case Deposit(owner, paused, amount, delivered, minOut, now) =>
      DepositKept(s, owner, paused, amount, delivered, minOut, now);
    case RequestWithdraw(owner, shares, now, slot) => RequestKept(s, owner, shares, now, slot);
    case CancelWithdraw(owner) => CancelKept(s, owner);
    case Withdraw(owner, paused, minOut, now, slot) => WithdrawKept(s, owner, paused, minOut, now, slot);
    case CloseStaleEscrow(owner) => StaleKept(s, owner);
    case Transfer(from, to, shares) => TransferKept(s, from, to, shares);
    case SendToEscrow(from, owner, shares) => SentKept(s, from, owner, shares);
    case SendToLocked(from, shares) => HeldReplaced(s.owned, from, Held(s.owned, from) - shares);
    case BurnShares(from, shares) => HeldReplaced(s.owned, from, Held(s.owned, from) - shares);
    case Donate(_) =>
    case SetLimits(_, _) =>
  }

  function Donated(events: seq<Event>): nat {
    if events == [] then 0
    else
      Donated(events[..|events| - 1]) + GiftOf(events[|events| - 1])
  }

  function Burned(events: seq<Event>): nat {
    if events == [] then 0
    else
      Burned(events[..|events| - 1]) + AshOf(events[|events| - 1])
  }

  lemma PriceTransitive(a: PoolState, b: PoolState, c: PoolState)
    requires PriceNotLower(a, b) && PriceNotLower(b, c)
    requires 0 < b.totalShares || (a.totalShares == 0 && a.quoteDeposited == 0)
    ensures PriceNotLower(a, c)
  {
    if 0 < b.totalShares {
      MulMono(b.quoteDeposited * c.totalShares, c.quoteDeposited * b.totalShares, a.totalShares);
      MulMono(a.quoteDeposited * b.totalShares, b.quoteDeposited * a.totalShares, c.totalShares);
      Rearrange(a.quoteDeposited, a.totalShares, b.quoteDeposited, b.totalShares, c.quoteDeposited, c.totalShares);
      MulCancelLeq(a.quoteDeposited * c.totalShares, c.quoteDeposited * a.totalShares, b.totalShares);
    }
  }

  lemma Rearrange(qa: int, sa: int, qb: int, sb: int, qc: int, sc: int)
    ensures qb * sc * sa == qb * sa * sc
    ensures qc * sb * sa == qc * sa * sb
    ensures qa * sb * sc == qa * sc * sb
  {
  }

  /**
   * Over every run, tokens sent or burned outside the program included: equity per share never falls, the vault's
   * surplus over recorded liabilities moves only by donations, and what the recorded shares exceed the tokens in
   * existence by moves only by burns.
   */
  lemma {:induction false} RunKept(s: LpState, events: seq<Event>)
    requires Valid(s) && Run(s, events).Success?
    ensures Kept(s, Run(s, events).value, Donated(events), Burned(events))
  {
    hide Step;
    if events != [] {
      var before := events[..|events| - 1];
      RunKept(s, before);
      var mid := Run(s, before).value;
      StepKept(mid, events[|events| - 1]);
      PriceTransitive(s.pool, mid.pool, Run(s, events).value.pool);
    }
  }

  // ---- Consequences ----

  /** Shares bought and redeemed at once return no more than was credited for them. */
  lemma NoFreeRoundTrip(net: u128, shares: u128, q: u128, bought: u128, total: u128)
    requires SharesForDeposit(net, shares, q).Success? && (shares == 0 ==> q == 0) && q + net < U128_LIMIT
    requires var minted := SharesForDeposit(net, shares, q).value;
             bought == minted.toDepositor && total == shares + bought + minted.lockedForever
    ensures var back := AssetsForShares(bought, total, q + net);
            back.Success? ==> back.value <= net
  {
    hide FloorMulDiv;
    MulDivExact(bought, q + net, total);
    if shares != 0 {
      MulDivExact(net, shares, q);
    }
    MintedWorth(net, shares, q, bought, total);
    var back := AssetsForShares(bought, total, q + net);
    if back.Success? {
      MulCancelLeq(back.value, net, total);
    }
  }

  lemma MintedWorth(net: int, shares: int, q: int, bought: int, total: int)
    requires 0 <= net && 0 <= bought <= total
    requires if shares == 0 then q == 0 else bought * q <= net * shares && total == shares + bought
    ensures bought * (q + net) <= net * total
  {
    if shares == 0 {
      MulMono(bought, total, net);
    } else {
      assert net * total == net * shares + bought * net;
    }
  }

  /**
   * From any valid ledger a pending request can be cancelled, whatever the pool's state, exactly while its escrow holds
   * what it recorded and nothing more.
   */
  lemma CancelSucceedsIff(s: LpState, owner: nat)
    requires Valid(s) && owner in s.requests
    ensures Cancelled(s, owner).Success? <==> s.escrow[owner] == s.requests[owner].shares
    ensures Cancelled(s, owner).Failure? ==> Cancelled(s, owner).error == EscrowNotEmpty
    ensures Cancelled(s, owner).Success? ==>
              var s' := Cancelled(s, owner).value;
              && owner in s'.owned && s'.owned[owner] == Held(s.owned, owner) + s.requests[owner].shares
              && s' == s.(owned := s.owned[owner := s'.owned[owner]], escrow := s.escrow - {owner},
                          requests := s.requests - {owner})
  {
    hide Total;
    EscrowReleased(s, owner);
  }

  /** A withdrawal that may go ahead: requested, unpaused, no trader claim outstanding, and redeemable. */
  predicate WithdrawalAdmitted(s: LpState, owner: nat, paused: bool, minOut: u64, now: i64, slot: u64) {
    && owner in s.requests && !paused
    && s.pool.lockedQuote == 0 && s.pool.reservedQuote == 0
    && Checkpointed(s.pool, now).Success?
    && Redeemable(s.pool, s.requests[owner], minOut, now, slot)
  }

  /**
   * On a valid ledger a withdrawal succeeds exactly when it is admitted and priced and its escrow holds what the
   * request recorded and nothing more. No balance or overflow check after pricing can refuse it, nor either closing
   * assertion, nor two of the pricing gates themselves; the escrow refuses it exactly when it holds more.
   */
  lemma WithdrawSucceedsIff(s: LpState, owner: nat, paused: bool, minOut: u64, now: i64, slot: u64)
    requires Valid(s)
    ensures var (r, admitted) := (Withdrawn(s, owner, paused, minOut, now, slot),
                                  WithdrawalAdmitted(s, owner, paused, minOut, now, slot));
            && (r.Success? <==> admitted && s.escrow[owner] == s.requests[owner].shares)
            && (r == Failure(EscrowNotEmpty) <==> admitted && s.escrow[owner] != s.requests[owner].shares)
            && (r.Failure? ==>
                  r.error !in {VaultInsolvent, InsufficientPoolEquity, InsufficientTokens, UtilizationTooHigh})
  {
    hide Total, Checkpointed, PriceWithdrawal, Redeemable;
    CheckpointErrors(s.pool, now);
    if owner in s.requests {
      EscrowReleased(s, owner);
      if Checkpointed(s.pool, now).Success? && s.pool.reservedQuote == 0 {
        var p := Checkpointed(s.pool, now).value.0;
        CheckpointKeepsLedger(s.pool, now);
        WithdrawalPriced(p, s.requests[owner], minOut, now, slot);
        WithdrawPricedIff(p, s.requests[owner], minOut, now, slot);
        SameTerms(s.pool, p, s.requests[owner], minOut, now, slot);
      }
    }
  }

  /** A checkpoint changes nothing a redemption reads. */
  lemma SameTerms(p: PoolState, p': PoolState, request: Request, minOut: u64, now: i64, slot: u64)
    requires p' == p.(utilizationIntegral := p'.utilizationIntegral, utilizationLastTs := p'.utilizationLastTs,
                      utilizationInitialized := p'.utilizationInitialized)
    ensures Redeemable(p', request, minOut, now, slot) == Redeemable(p, request, minOut, now, slot)
    ensures Redeemed(p', request.shares) == Redeemed(p, request.shares)
  {
  }

  /**
   * A withdrawal pays its owner the redemption less the fee, keeps the fee as revenue, burns the request's shares with
   * its escrow, and touches nothing else.
   */
  lemma WithdrawMoves(s: LpState, owner: nat, paused: bool, minOut: u64, now: i64, slot: u64)
    requires Withdrawn(s, owner, paused, minOut, now, slot).Success?
    ensures owner in s.requests && Checkpointed(s.pool, now).Success?
    ensures var (s', p, shares) := (Withdrawn(s, owner, paused, minOut, now, slot).value,
                                    Checkpointed(s.pool, now).value.0, s.requests[owner].shares);
            var gross := Redeemed(s.pool, shares);
            var fee := CeilDiv(gross * s.pool.withdrawFeeBps, 10_000);
            && s'.vault == s.vault - (gross - fee)
            && s'.pool.quoteDeposited == s.pool.quoteDeposited - gross
            && s'.pool.pendingProtocolFees == s.pool.pendingProtocolFees + fee
            && s'.pool.totalShares == s.pool.totalShares - shares
            && s'.pool == p.(quoteDeposited := s'.pool.quoteDeposited,
                             pendingProtocolFees := s'.pool.pendingProtocolFees,
                             totalShares := s'.pool.totalShares)
            && s' == s.(pool := s'.pool, vault := s'.vault, escrow := s.escrow - {owner},
                        requests := s.requests - {owner})
  {
    hide Checkpointed, PriceWithdrawal, Redeemable, Redeemed, CeilDiv;
    var p := Checkpointed(s.pool, now).value.0;
    CheckpointKeepsLedger(s.pool, now);
    WithdrawPricedIff(p, s.requests[owner], minOut, now, slot);
    SameTerms(s.pool, p, s.requests[owner], minOut, now, slot);
  }

  /** A deposit the pool accepts: unpaused, no trader claim outstanding, and priced. */
  predicate DepositAdmitted(s: LpState, paused: bool, amount: u64, delivered: u64, minOut: u64, now: i64) {
    && !paused && 0 < amount
    && s.pool.lockedQuote == 0 && s.pool.reservedQuote == 0
    && Checkpointed(s.pool, now).Success?
    && Depositable(s.pool, delivered, minOut)
  }

  lemma SameDeposit(p: PoolState, p': PoolState, delivered: u64, minOut: u64)
    requires p' == p.(utilizationIntegral := p'.utilizationIntegral, utilizationLastTs := p'.utilizationLastTs,
                      utilizationInitialized := p'.utilizationInitialized)
    ensures Depositable(p', delivered, minOut) == Depositable(p, delivered, minOut)
    ensures forall net :: Minted(p', net) == Minted(p, net)
  {
  }

  /**
   * On a valid ledger a deposit succeeds exactly when it is admitted and neither the vault nor the share count outgrows
   * 64 bits: no other sum can overflow, and the closing assertions cannot refuse.
   */
  lemma DepositSucceedsIff(s: LpState, owner: nat, paused: bool, amount: u64, delivered: u64, minOut: u64, now: i64)
    requires Valid(s)
    ensures var net := delivered - CeilDiv(delivered * s.pool.depositFeeBps, 10_000);
            Deposited(s, owner, paused, amount, delivered, minOut, now).Success?
            <==> && DepositAdmitted(s, paused, amount, delivered, minOut, now)
                 && s.vault + delivered < U64_LIMIT
                 && s.pool.totalShares + Minted(s.pool, net) + (if s.pool.totalShares == 0 then 1_000_000 else 0)
                    < U64_LIMIT
  {
    hide Total, Checkpointed, PriceDeposit, Depositable, Minted, CeilDiv;
    if Checkpointed(s.pool, now).Success? && s.pool.reservedQuote == 0 {
      var p := Checkpointed(s.pool, now).value.0;
      CheckpointKeepsLedger(s.pool, now);
      DepositPricedIff(p, delivered, minOut);
      SameDeposit(s.pool, p, delivered, minOut);
      HeldReplaced(s.owned, owner, 0);
      if PriceDeposit(p, delivered, minOut).Success? {
        DepositTermsFair(p, delivered, minOut);
      }
    }
  }

  /** A deposit credits its owner with what it minted, and touches nothing else. */
  lemma DepositMoves(s: LpState, owner: nat, paused: bool, amount: u64, delivered: u64, minOut: u64, now: i64)
    requires Deposited(s, owner, paused, amount, delivered, minOut, now).Success?
    ensures Checkpointed(s.pool, now).Success?
    ensures var (s', p) := (Deposited(s, owner, paused, amount, delivered, minOut, now).value,
                            Checkpointed(s.pool, now).value.0);
            var fee := CeilDiv(delivered * s.pool.depositFeeBps, 10_000);
            var (minted, locked) := (Minted(s.pool, delivered - fee), if s.pool.totalShares == 0 then 1_000_000 else 0);
            && owner in s'.owned && s'.owned[owner] == Held(s.owned, owner) + minted
            && s'.locked == s.locked + locked
            && s'.vault == s.vault + delivered
            && s'.pool.quoteDeposited == s.pool.quoteDeposited + delivered - fee
            && s'.pool.pendingProtocolFees == s.pool.pendingProtocolFees + fee
            && s'.pool.totalShares == s.pool.totalShares + minted + locked
            && s'.pool == p.(quoteDeposited := s'.pool.quoteDeposited,
                             pendingProtocolFees := s'.pool.pendingProtocolFees,
                             totalShares := s'.pool.totalShares)
            && s' == s.(pool := s'.pool, vault := s'.vault, locked := s'.locked,
                        owned := s.owned[owner := s'.owned[owner]])
  {
    hide Checkpointed, PriceDeposit, Depositable, Minted, CeilDiv;
    var p := Checkpointed(s.pool, now).value.0;
    CheckpointKeepsLedger(s.pool, now);
    DepositPricedIff(p, delivered, minOut);
    SameDeposit(s.pool, p, delivered, minOut);
  }

  /**
   * A request moves its shares into a fresh escrow, exactly when the owner has them, has no other request or escrow,
   * and the delay still fits the clock.
   */
  lemma RequestSucceedsIff(s: LpState, owner: nat, shares: u64, now: i64, slot: u64)
    ensures var r := Requested(s, owner, shares, now, slot);
            if owner in s.requests || owner in s.escrow then r == Failure(RequestExists)
            else if shares == 0 then r == Failure(ZeroAmount)
            else if Held(s.owned, owner) < shares then r == Failure(InsufficientTokens)
            else if I64_LIMIT <= now + s.pool.withdrawDelaySeconds then r == Failure(Risk(MathOverflow))
            else
              && r.Success? && owner in r.value.owned
              && r.value.owned[owner] == Held(s.owned, owner) - shares
              && r.value == s.(owned := s.owned[owner := r.value.owned[owner]], escrow := s.escrow[owner := shares],
                               requests := s.requests[owner := Request(shares, now, slot)])
  {
  }

  /** Only an existing, empty escrow without a request closes, and nothing else moves. */
  lemma StaleClosesIff(s: LpState, owner: nat)
    ensures StaleClosed(s, owner)
            == if owner !in s.escrow then Failure(NoRequest)
               else if s.escrow[owner] != 0 then Failure(EscrowNotEmpty)
               else if owner in s.requests then Failure(WithdrawRequestStillOpen)
               else Success(s.(escrow := s.escrow - {owner}))
  {
  }

  /** The ceiling may be set anywhere above nothing up to 20%. */
  lemma LimitsSetIff(s: LpState, maxAum: u64, maxBps: u16)
    ensures Step(s, SetLimits(maxAum, maxBps))
            == if 0 < maxBps <= 2_000
               then Success(s.(pool := s.pool.(maxAumQuote := maxAum, maxUtilizationBps := maxBps)))
               else Failure(UtilizationCeilingTooHigh)
  {
  }

  /**
   * On a valid ledger a holder may send any shares it has to anyone, to an existing escrow or to the locked account, or
   * burn them: tokens never exceed the recorded shares, so no balance they reach can overflow.
   */
  lemma SharesMoveIff(s: LpState, from: nat, to: nat, shares: u64)
    requires Valid(s)
    ensures Step(s, Transfer(from, to, shares)).Success? <==> shares <= Held(s.owned, from)
    ensures Step(s, SendToEscrow(from, to, shares)).Success? <==> to in s.escrow && shares <= Held(s.owned, from)
    ensures Step(s, SendToLocked(from, shares)).Success? <==> shares <= Held(s.owned, from)
    ensures Step(s, BurnShares(from, shares)).Success? <==> shares <= Held(s.owned, from)
  {
    hide Total;
    HeldReplaced(s.owned, from, 0);
    if shares <= Held(s.owned, from) {
      HeldReplaced(s.owned, from, Held(s.owned, from) - shares);
      HeldReplaced(s.owned[from := Held(s.owned, from) - shares], to, 0);
    }
    HeldReplaced(s.escrow, to, 0);
  }

  /** What pricing establishes once no reserve is outstanding. */
  lemma WithdrawalPriced(p: PoolState, request: Request, minOut: u64, now: i64, slot: u64)
    requires p.reservedQuote == 0
    ensures var r := PriceWithdrawal(p, request, minOut, now, slot);
            if r.Success? then
              && r.value.gross <= p.quoteDeposited && r.value.net + r.value.fee == r.value.gross
              && request.shares <= p.totalShares && p.maxUtilizationBps <= BPS_DENOMINATOR
            else
              r.error !in {VaultInsolvent, InsufficientPoolEquity, InsufficientTokens, EscrowNotEmpty,
                           UtilizationTooHigh}
  {
    hide FloorMulDiv, CeilMulDiv;
    if AssetsForShares(request.shares, p.totalShares, p.quoteDeposited).Success? {
      WithdrawPrice(p.quoteDeposited, p.totalShares, request.shares);
    }
  }

  lemma CheckpointErrors(p: PoolState, now: i64)
    ensures Checkpointed(p, now).Failure? ==> Checkpointed(p, now).error.Risk?
  {
  }

  // ---- Escrows that hold more than their request ----

  /** The escrow of a pending request holds shares the request does not account for. */
  predicate Overfull(s: LpState, owner: nat) {
    owner in s.requests && owner in s.escrow && s.requests[owner].shares < s.escrow[owner]
  }

  /** No event takes a share out of an overfull escrow or its request away. */
  lemma OverfullStep(s: LpState, e: Event, owner: nat)
    requires Overfull(s, owner) && Step(s, e).Success?
    ensures var s' := Step(s, e).value;
            && Overfull(s', owner)
            && s'.requests[owner] == s.requests[owner] && s.escrow[owner] <= s'.escrow[owner]
  {
    hide Checkpointed, PriceDeposit, PriceWithdrawal, AssertSolvent, AssertCeiling, NotWorsened;
  }

  lemma {:induction false} OverfullForGood(s: LpState, events: seq<Event>, owner: nat)
    requires Overfull(s, owner) && Run(s, events).Success?
    ensures var s' := Run(s, events).value;
            && Overfull(s', owner)
            && s'.requests[owner] == s.requests[owner] && s.escrow[owner] <= s'.escrow[owner]
  {
    hide Step, Overfull;
    if events != [] {
      OverfullForGood(s, events[..|events| - 1], owner);
      OverfullStep(Run(s, events[..|events| - 1]).value, events[|events| - 1], owner);
    }
  }

  /** Whatever happens from here on, the provider's request stays open. */
  ghost predicate Stranded(s: LpState, owner: nat) {
    forall events: seq<Event> :: Run(s, events).Success? ==> owner in Run(s, events).value.requests
  }

  /** A pending request of a valid ledger can never be completed or cancelled exactly when its escrow holds too much. */
  lemma StrandedIffOverfull(s: LpState, owner: nat)
    requires Valid(s) && owner in s.requests
    ensures Stranded(s, owner) <==> Overfull(s, owner)
  {
    hide Run, Overfull;
    if Overfull(s, owner) {
      forall events: seq<Event> | Run(s, events).Success? ensures owner in Run(s, events).value.requests {
        OverfullForGood(s, events, owner);
        OverfullHasRequest(Run(s, events).value, owner);
      }
    } else {
      CancelSucceedsIff(s, owner);
      OverfullOtherwise(s, owner);
      OneStep(s, CancelWithdraw(owner));
    }
  }

  lemma OverfullHasRequest(s: LpState, owner: nat)
    ensures Overfull(s, owner) ==> owner in s.requests
  {
  }

  lemma OverfullOtherwise(s: LpState, owner: nat)
    requires Valid(s) && owner in s.requests
    ensures !Overfull(s, owner) <==> s.escrow[owner] == s.requests[owner].shares
  {
  }

  lemma OneStep(s: LpState, e: Event)
    ensures Run(s, [e]) == Step(s, e)
  {
    hide Step;
    assert [e][..0] == [];
    assert Run(s, []) == Success(s);
  }

  /** Any holder of a share can make any pending request overfull. */
  lemma OneShareStrands(s: LpState, holder: nat, owner: nat)
    requires Valid(s) && owner in s.requests && 0 < Held(s.owned, holder)
    ensures var sent := Step(s, SendToEscrow(holder, owner, 1));
            && sent.Success? && Valid(sent.value)
            && Stranded(sent.value, owner)
            && Cancelled(sent.value, owner) == Failure(EscrowNotEmpty)
  {
    hide Total, Stranded;
    TotalSplit(s.escrow, owner, Tokens());
    HeldReplaced(s.owned, holder, 0);
    var e := SendToEscrow(holder, owner, 1);
    StepKept(s, e);
    var s' := Step(s, e).value;
    StrandedIffOverfull(s', owner);
    CancelSucceedsIff(s', owner);
  }

  /** A new pool without fees or delays, before its first deposit. */
  predicate Fresh(s: LpState) {
    && s.pool.totalShares == 0 && s.pool.quoteDeposited == 0 && s.pool.pendingProtocolFees == 0
    && s.pool.lockedQuote == 0 && s.pool.reservedQuote == 0
    && s.pool.depositFeeBps == 0 && s.pool.withdrawDelaySeconds == 0
    && s.pool.utilizationInitialized && s.pool.utilizationLastTs == 0
    && s.vault == 0 && s.locked == 0 && s.owned == map[] && s.escrow == map[] && s.requests == map[]
  }

  /** A first deposit, a share given to someone else, and a request. */
  function Opening(amount: u64, shares: u64): seq<Event> {
    [Deposit(0, false, amount, amount, 0, 0), Transfer(0, 1, 1), RequestWithdraw(0, shares, 0, 0)]
  }

  /**
   * It takes four events from any new pool, of whatever amounts: a deposit, a share given to someone else, a request
   * that could have been cancelled, and that share sent to its escrow.
   */
  lemma StrandingIsReachable(s0: LpState, amount: u64, shares: u64)
    requires Fresh(s0) && 0 < shares && shares + 1_000_000 < amount <= s0.pool.maxAumQuote
    ensures Valid(s0) && Run(s0, Opening(amount, shares)).Success?
    ensures var s := Run(s0, Opening(amount, shares)).value;
            && Cancelled(s, 0).Success?
            && Step(s, SendToEscrow(1, 0, 1)).Success?
            && Stranded(Step(s, SendToEscrow(1, 0, 1)).value, 0)
  {
    hide Fresh, Stranded, Valid, Step, Cancelled;
    var (d, t, r) := (Deposit(0, false, amount, amount, 0, 0), Transfer(0, 1, 1), RequestWithdraw(0, shares, 0, 0));
    FreshIsValid(s0);
    var s1 := FirstDeposited(s0, amount);
    DepositSteps(s0, d);
    DepositKept(s0, 0, false, amount, amount, 0, 0);
    var s3 := GiveAndRequest(s1, shares);
    ThreeSteps(s0, d, t, r);
    CancelSucceedsIff(s3, 0);
    OneShareStrands(s3, 1, 0);
  }

  lemma DepositSteps(s: LpState, d: Event)
    requires d.Deposit?
    ensures Step(s, d) == Deposited(s, d.owner, d.paused, d.amount, d.delivered, d.minSharesOut, d.now)
  {
    hide Deposited;
  }

  lemma FreshIsValid(s: LpState)
    requires Fresh(s)
    ensures Valid(s)
  {
    TotalZero(s.owned, Tokens());
    TotalZero(s.escrow, Tokens());
  }

  lemma FirstAdmitted(s: LpState, amount: u64)
    requires Fresh(s) && 1_000_000 < amount <= s.pool.maxAumQuote
    ensures CeilDiv(amount * s.pool.depositFeeBps, 10_000) == 0
    ensures Minted(s.pool, amount) == amount - 1_000_000
    ensures DepositAdmitted(s, false, amount, amount, 0, 0)
    ensures Checkpointed(s.pool, 0) == Success((s.pool, true))
  {
    assert amount * s.pool.depositFeeBps == 0;
  }

  lemma FirstDeposited(s: LpState, amount: u64) returns (s': LpState)
    requires Fresh(s) && 1_000_000 < amount <= s.pool.maxAumQuote
    ensures Deposited(s, 0, false, amount, amount, 0, 0) == Success(s')
    ensures s'.owned == map[0 := amount - 1_000_000] && s'.escrow == map[] && s'.requests == map[]
    ensures s'.pool.withdrawDelaySeconds == 0
  {
    hide Deposited, Checkpointed, CeilDiv, Minted, DepositAdmitted, Valid;
    FreshIsValid(s);
    FirstAdmitted(s, amount);
    DepositSucceedsIff(s, 0, false, amount, amount, 0, 0);
    s' := Deposited(s, 0, false, amount, amount, 0, 0).value;
    DepositMoves(s, 0, false, amount, amount, 0, 0);
  }

  lemma GiveAndRequest(s: LpState, shares: u64) returns (s': LpState)
    requires Valid(s) && 0 in s.owned && 0 < shares < s.owned[0] && s.owned.Keys == {0}
    requires s.escrow == map[] && s.requests == map[] && s.pool.withdrawDelaySeconds == 0
    ensures var (t, r) := (Transfer(0, 1, 1), RequestWithdraw(0, shares, 0, 0));
            Step(s, t).Success? && Step(Step(s, t).value, r) == Success(s')
    ensures Valid(s') && s'.escrow == map[0 := shares] && s'.requests == map[0 := Request(shares, 0, 0)]
    ensures Held(s'.owned, 1) == 1
  {
    hide Valid;
    var (t, r) := (Transfer(0, 1, 1), RequestWithdraw(0, shares, 0, 0));
    var mid := Step(s, t).value;
    StepKept(s, t);
    s' := Step(mid, r).value;
    StepKept(mid, r);
  }

  lemma ThreeSteps(s: LpState, a: Event, b: Event, c: Event)
    requires Step(s, a).Success? && Step(Step(s, a).value, b).Success?
    ensures Run(s, [a, b, c]) == Step(Step(Step(s, a).value, b).value, c)
  {
    hide Step;
    OneStep(s, a);
    assert [a, b, c][..2] == [a, b] && [a, b][..1] == [a];
  }
}

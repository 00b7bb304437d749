/** The liquidity handlers over the accounts they update in place, proved against the ledger. */
module LpProgram {
  import opened Numbers
  import opened Settlement
  import opened Accrual
  import opened LpLedger

  /** The accounts a liquidity instruction is handed. A failed handler reverts its transaction. */
  class Accounts {
    const pool: Pool
    var vault: u64
    var locked: u64
    var owned: map<nat, u64>
    var escrow: map<nat, u64>
    var requests: map<nat, Request>

    constructor (pool: Pool)
      ensures this.pool == pool && View() == LpState(pool.View(), 0, 0, map[], map[], map[])
    {
      this.pool := pool;
      vault, locked := 0, 0;
      owned, escrow, requests := map[], map[], map[];
    }

    function View(): LpState
      reads this, pool
    {
      LpState(pool.View(), vault, locked, owned, escrow, requests)
    }

    method HandleDeposit(owner: nat, paused: bool, amount: u64, delivered: u64, minSharesOut: u64, now: i64)
      returns (r: Result<(), PerpsError>)
      modifies this, pool
      ensures var spec := Deposited(old(View()), owner, paused, amount, delivered, minSharesOut, now);
              if spec.Failure? then r == Failure(spec.error) else r.Success? && View() == spec.value
    {
      hide Checkpointed, PriceDeposit, AssertSolvent, NotWorsened;
      :- Need(!paused, DepositsPaused);
      :- Need(amount > 0, ZeroAmount);
      :- AssertLpValuationAvailable(pool.View());
      var _ :- pool.CheckpointUtilization(now);
      vault :- CheckedU64(vault + delivered);
      var reservedBefore, depositedBefore := pool.reservedQuote, pool.quoteDeposited;
      var terms :- PriceDeposit(pool.View(), delivered, minSharesOut);
      var held :- CheckedU64(Held(owned, owner) + terms.toDepositor);
      owned := owned[owner := held];
      locked :- CheckedU64(locked + terms.lockedForever);
      pool.quoteDeposited := terms.deposited;
      pool.pendingProtocolFees :- CheckedU64(pool.pendingProtocolFees + terms.fee);
      pool.totalShares :- CheckedU64(pool.totalShares + terms.minted);
      :- AssertSolvent(vault, pool.View());
      :- Need(NotWorsened(pool.reservedQuote, pool.quoteDeposited, reservedBefore, depositedBefore),
              UtilizationTooHigh);
      return Success(());
    }

    method HandleRequestWithdraw(owner: nat, shares: u64, now: i64, slot: u64) returns (r: Result<(), PerpsError>)
      modifies this
      ensures var spec := Requested(old(View()), owner, shares, now, slot);
              if spec.Failure? then r == Failure(spec.error) else r.Success? && View() == spec.value
    {
      if owner in requests || owner in escrow {
        return Failure(RequestExists);
      }
      :- Need(shares > 0, ZeroAmount);
      :- Need(shares <= Held(owned, owner), InsufficientTokens);
      owned := owned[owner := Held(owned, owner) - shares];
      escrow := escrow[owner := shares];
      requests := requests[owner := Request(shares, now, slot)];
      var _ :- CheckedI64(now + pool.withdrawDelaySeconds);
      return Success(());
    }

    method HandleCancelWithdraw(owner: nat) returns (r: Result<(), PerpsError>)
      modifies this
      ensures var spec := Cancelled(old(View()), owner);
              if spec.Failure? then r == Failure(spec.error) else r.Success? && View() == spec.value
    {
      if owner !in requests || owner !in escrow {
        return Failure(NoRequest);
      }
      var shares := requests[owner].shares;
      :- Need(escrow[owner] == shares, EscrowNotEmpty);
      :- Need(shares > 0, ZeroAmount);
      var held :- CheckedU64(Held(owned, owner) + shares);
      owned := owned[owner := held];
      escrow := escrow - {owner};
      requests := requests - {owner};
      return Success(());
    }

    method HandleCloseStaleEscrow(owner: nat) returns (r: Result<(), PerpsError>)
      modifies this
      ensures var spec := StaleClosed(old(View()), owner);
              if spec.Failure? then r == Failure(spec.error) else r.Success? && View() == spec.value
    {
      if owner !in escrow {
        return Failure(NoRequest);
      }
      :- Need(escrow[owner] == 0, EscrowNotEmpty);
      :- Need(owner !in requests, WithdrawRequestStillOpen);
      escrow := escrow - {owner};
      return Success(());
    }

    method HandleWithdraw(owner: nat, paused: bool, minAmountOut: u64, now: i64, slot: u64)
      returns (r: Result<(), PerpsError>)
      modifies this, pool
      ensures var spec := Withdrawn(old(View()), owner, paused, minAmountOut, now, slot);
              if spec.Failure? then r == Failure(spec.error) else r.Success? && View() == spec.value
    {
      hide Checkpointed, PriceWithdrawal, AssertSolvent, AssertCeiling;
      :- Need(owner in requests && owner in escrow, NoRequest);
      :- Need(!paused, WithdrawalsPaused);
      :- AssertLpValuationAvailable(pool.View());
      var _ :- pool.CheckpointUtilization(now);
      var request := requests[owner];
      var terms :- PriceWithdrawal(pool.View(), request, minAmountOut, now, slot);
      :- Need(request.shares <= escrow[owner], InsufficientTokens);
      :- Need(terms.net <= vault, InsufficientTokens);
      vault := vault - terms.net;
      :- Need(escrow[owner] == request.shares, EscrowNotEmpty);
      escrow := escrow - {owner};
      requests := requests - {owner};
      pool.quoteDeposited :- CheckedU64(pool.quoteDeposited - terms.gross);
      pool.pendingProtocolFees :- CheckedU64(pool.pendingProtocolFees + terms.fee);
      pool.totalShares :- CheckedU64(pool.totalShares - request.shares);
      :- AssertSolvent(vault, pool.View());
      :- AssertCeiling(pool.View());
      return Success(());
    }
  }
}

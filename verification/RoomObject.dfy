/** The room as the object callers hold: commands run on a clone, reconcile, then commit. */
module RoomObject {
  import opened Numbers
  import opened RoomModel
  import RoomKernel
  import opened RoomInvariant
  import RoomRuns
  import opened Sums

  lemma LeastOf(s: set<nat>) returns (k: nat)
    requires s != {}
    ensures k in s && forall j :: j in s ==> k <= j
    decreases s
  {
    var x :| x in s;
    k := x;
    if s != {x} {
      var y := LeastOf(s - {x});
      k := Min(x, y);
      forall j | j in s ensures k <= j {
        assert j == x || j in s - {x};
      }
    }
  }

  /** The next key an ordered map iterates. */
  function Least(s: set<u64>): (k: u64)
    requires s != {}
    ensures k in s && forall j :: j in s ==> k <= j
  {
    assert exists k :: k in s && forall j :: j in s ==> k <= j by {
      var k := LeastOf(s);
    }
    var k :| k in s && forall j :: j in s ==> k <= j;
    k
  }

  lemma NeverRefused(s: RoomState, command: Command)
    requires RoomKernel.Planned(s, command).Success? && !RoomKernel.Reconciles(RoomKernel.Planned(s, command).value.0)
    ensures !Inv(s)
  {
    hide Inv, RoomKernel.Planned, RoomKernel.Reconciles;
    if Inv(s) {
      RoomRuns.ReconciliationIsRedundant(s, command);
    }
  }

  lemma StillValid(s: RoomState, command: Command)
    requires RoomKernel.Execute(s, command).Success?
    ensures Inv(s) ==> Inv(RoomKernel.Execute(s, command).value.0)
  {
    hide Inv, RoomKernel.Execute;
    if Inv(s) {
      RoomRuns.ExecuteKeeps(s, command);
    }
  }

  class Room {
    const id: RoomId
    const administrator: OwnerId
    var members: map<MemberId, Member>
    var cells: map<CellId, Cell>
    var markets: map<MarketId, Market>
    var positions: map<PositionId, OpenReceipt>
    var terminal: map<TerminalKey, Observation>
    var nextPosition: u64
    var currentSlot: u64
    var externalIn: u128
    var externalOut: u128
    var records: seq<Record>

    function View(): RoomState
      reads this
    {
      RoomState(id, administrator, members, cells, markets, positions, terminal, nextPosition, currentSlot,
                externalIn, externalOut, records)
    }

    ghost predicate Valid()
      reads this
    {
      Inv(View())
    }

    constructor (id: RoomId, administrator: OwnerId)
      ensures Valid() && View() == RoomKernel.NewRoom(id, administrator)
    {
      this.id, this.administrator := id, administrator;
      members, cells, markets, positions, terminal := map[], map[], map[], map[], map[];
      nextPosition, currentSlot, externalIn, externalOut, records := 1, 0, 0, 0, [];
      new;
      NewRoomInv(id, administrator);
    }

    constructor Clone(of: Room)
      ensures View() == of.View()
    {
      id, administrator := of.id, of.administrator;
      members, cells, markets, positions, terminal := of.members, of.cells, of.markets, of.positions, of.terminal;
      nextPosition, currentSlot, externalIn, externalOut, records :=
        of.nextPosition, of.currentSlot, of.externalIn, of.externalOut, of.records;
    }

    /** Commit a plan made from this room. */
    method Commit(planned: Room)
      requires planned.id == id && planned.administrator == administrator
      modifies this
      ensures View() == old(planned.View())
    {
      members, cells, markets, positions, terminal :=
        planned.members, planned.cells, planned.markets, planned.positions, planned.terminal;
      nextPosition, currentSlot, externalIn, externalOut, records :=
        planned.nextPosition, planned.currentSlot, planned.externalIn, planned.externalOut, planned.records;
    }

    /**
     * Any error leaves the room and its transcript exactly as they were. From a valid room the
     * reconciliation never refuses, so the error is the one `apply` reports.
     */
    method Execute(command: Command) returns (r: Result<Outcome, Error>)
      modifies this
      ensures var spec := RoomKernel.Execute(old(View()), command);
              if spec.Failure? then r.Failure? && View() == old(View()) && (old(Valid()) ==> r == Failure(spec.error))
              else r == Success(spec.value.1) && View() == spec.value.0
      ensures old(Valid()) ==> Valid()
    {
      hide Inv, RoomKernel.Apply, RoomKernel.Reconciles;
      ghost var before := View();
      var planned := new Room.Clone(this);
      var slot := RoomKernel.SlotOf(command);
      if slot.Some? {
        if slot.value < planned.currentSlot {
          return Failure(InvalidTime);
        }
        planned.currentSlot := slot.value;
      }
      assert planned.View() == RoomKernel.WithSlot(before, command);
      var outcome :- planned.Apply(command);
      assert RoomKernel.Planned(before, command) == Success((planned.View(), outcome));
      var checked := planned.CheckInvariants();
      if checked.Fail? {
        NeverRefused(before, command);
        return Failure(checked.error);
      }
      planned.records := planned.records + [Record(command, outcome)];
      Commit(planned);
      StillValid(before, command);
      return Success(outcome);
    }

    /** Re-execute a transcript from genesis and compare every outcome. */
    static method Replay(id: RoomId, administrator: OwnerId, records: seq<Record>) returns (r: Result<Room, Error>)
      ensures var spec := RoomRuns.Replay(id, administrator, records);
              if spec.Failure? then r == Failure(spec.error)
              else r.Success? && fresh(r.value) && r.value.Valid() && r.value.View() == spec.value
    {
      hide Inv, RoomKernel.Execute;
      var room := new Room(id, administrator);
      for i := 0 to |records|
        invariant fresh(room) && room.Valid()
        invariant RoomRuns.Replay(id, administrator, records[..i]) == Success(room.View())
      {
        ghost var before := room.View();
        assert records[..i + 1][..i] == records[..i];
        var outcome := room.Execute(records[i].command);
        if outcome.Failure? || outcome.value != records[i].outcome {
          ReplayStops(id, administrator, records, i + 1);
          return if outcome.Failure? then Failure(outcome.error) else Failure(ReplayMismatch);
        }
      }
      assert records[..|records|] == records;
      return Success(room);
    }

    method Apply(command: Command) returns (r: Result<Outcome, Error>)
      modifies this
      ensures var spec := RoomKernel.Apply(old(View()), command);
              if spec.Failure? then r == Failure(spec.error) else r == Success(spec.value.1) && View() == spec.value.0
    {
      match command
      case RegisterMarket(actor, market) => r := RegisterMarket(actor, market);
      case AddCell(actor, cell, policy) => r := AddCell(actor, cell, policy);
      case ChangeCellPolicy(actor, cell, revision, policy) => r := ChangeCellPolicy(actor, cell, revision, policy);
      case AddMember(actor, member, delegate, policy) => r := AddMember(actor, member, delegate, policy);
      case ChangePolicy(actor, member, revision, delegate, policy) =>
        r := ChangePolicy(actor, member, revision, delegate, policy);
      case Contribute(actor, member, amount) => r := Contribute(actor, member, amount);
      case FundCell(actor, cell, amount) => r := FundCell(actor, cell, amount);
      case Withdraw(actor, member, amount) => r := Withdraw(actor, member, amount);
      case WithdrawCell(actor, cell, amount) => r := WithdrawCell(actor, cell, amount);
      case Open(actor, intent, observation, now) => r := Open(actor, intent, observation, now);
      case Close(actor, intent, observation, now) => r := Close(actor, intent, observation, now);
      case RecordTerminalObservation(actor, position, observation, now) =>
        r := RecordTerminal(actor, position, observation, now);
      case SettleMatured(position, now) => r := SettleMatured(position, now);
    }

    method RegisterMarket(actor: Actor, market: Market) returns (r: Result<Outcome, Error>)
      modifies this
      ensures var spec := RoomKernel.ApplyRegisterMarket(old(View()), actor, market);
              if spec.Failure? then r == Failure(spec.error) else r == Success(spec.value.1) && View() == spec.value.0
    {
      if actor != Owner(administrator) {
        return Failure(Unauthorized);
      }
      :- ValidateMarket(market);
      var expected: u64 := 1;
      if market.id in markets {
        expected :- Next(markets[market.id].generation);
      }
      :- Need(market.generation == expected, WrongGeneration);
      markets := markets[market.id := market];
      return Success(RegisteredMarket(market.id, market.generation));
    }

    method AddCell(actor: Actor, cell: CellId, policy: UnderwritingPolicy) returns (r: Result<Outcome, Error>)
      modifies this
      ensures var spec := RoomKernel.ApplyAddCell(old(View()), actor, cell, policy);
              if spec.Failure? then r == Failure(spec.error) else r == Success(spec.value.1) && View() == spec.value.0
    {
      if !actor.Owner? {
        return Failure(Unauthorized);
      }
      :- Need(cell !in cells, AlreadyExists);
      :- ValidateUnderwriting(policy);
      cells := cells[cell := Cell(actor.owner, 1, policy, 0, 0, 0, 0)];
      return Success(AddedCell(cell));
    }

    method ChangeCellPolicy(actor: Actor, cell: CellId, expectedRevision: u64, policy: UnderwritingPolicy)
      returns (r: Result<Outcome, Error>)
      modifies this
      ensures var spec := RoomKernel.ApplyChangeCellPolicy(old(View()), actor, cell, expectedRevision, policy);
              if spec.Failure? then r == Failure(spec.error) else r == Success(spec.value.1) && View() == spec.value.0
    {
      var c :- Find(cells, cell, UnknownCell);
      :- RequireOwner(actor, c.owner);
      :- ValidateUnderwriting(policy);
      :- Need(expectedRevision == c.policyRevision, WrongCellPolicy);
      var revision :- Next(c.policyRevision);
      cells := cells[cell := c.(policyRevision := revision, policy := policy)];
      return Success(ChangedCellPolicy(cell, revision));
    }

    method AddMember(actor: Actor, member: MemberId, delegate: Option<DelegateId>, policy: Policy)
      returns (r: Result<Outcome, Error>)
      modifies this
      ensures var spec := RoomKernel.ApplyAddMember(old(View()), actor, member, delegate, policy);
              if spec.Failure? then r == Failure(spec.error) else r == Success(spec.value.1) && View() == spec.value.0
    {
      if !actor.Owner? {
        return Failure(Unauthorized);
      }
      :- ValidatePolicy(policy);
      :- Need(member !in members, AlreadyExists);
      members := members[member := Member(actor.owner, delegate, 1, 1, policy, 0, 0, 0, 0, 0, 0, 0, 0)];
      return Success(AddedMember(member));
    }

    method ChangePolicy(actor: Actor, member: MemberId, expectedRevision: u64, delegate: Option<DelegateId>,
                        policy: Policy)
      returns (r: Result<Outcome, Error>)
      modifies this
      ensures var spec := RoomKernel.ApplyChangePolicy(old(View()), actor, member, expectedRevision, delegate, policy);
              if spec.Failure? then r == Failure(spec.error) else r == Success(spec.value.1) && View() == spec.value.0
    {
      if ValidatePolicy(policy).Fail? {
        return Failure(InvalidPolicy);
      }
      var m :- Find(members, member, UnknownMember);
      :- RequireOwner(actor, m.owner);
      :- Need(expectedRevision == m.policyRevision, WrongPolicy);
      :- Need(policy.contributionLimit >= m.contributed, ContributionBudget);
      var revision :- Next(m.policyRevision);
      members := members[member := m.(policyRevision := revision, policy := policy, delegate := delegate)];
      return Success(ChangedPolicy(member, revision));
    }

    method Contribute(actor: Actor, member: MemberId, amount: u128) returns (r: Result<Outcome, Error>)
      modifies this
      ensures var spec := RoomKernel.ApplyContribute(old(View()), actor, member, amount);
              if spec.Failure? then r == Failure(spec.error) else r == Success(spec.value.1) && View() == spec.value.0
    {
      if amount == 0 {
        return Failure(InvalidAmount);
      }
      var m :- Find(members, member, UnknownMember);
      :- RequireOwner(actor, m.owner);
      var contributed :- Add(m.contributed, amount);
      :- Need(contributed <= m.policy.contributionLimit, ContributionBudget);
      members := members[member := m.(contributed := contributed)];
      var free :- Add(m.free, amount);
      members := members[member := members[member].(free := free)];
      externalIn :- Add(externalIn, amount);
      return Success(Contributed(member, amount));
    }

    method FundCell(actor: Actor, cell: CellId, amount: u128) returns (r: Result<Outcome, Error>)
      modifies this
      ensures var spec := RoomKernel.ApplyFundCell(old(View()), actor, cell, amount);
              if spec.Failure? then r == Failure(spec.error) else r == Success(spec.value.1) && View() == spec.value.0
    {
      if amount == 0 {
        return Failure(InvalidAmount);
      }
      var c :- Find(cells, cell, UnknownCell);
      :- RequireOwner(actor, c.owner);
      var balance :- Add(c.balance, amount);
      cells := cells[cell := c.(balance := balance)];
      var contributed :- Add(c.contributed, amount);
      cells := cells[cell := cells[cell].(contributed := contributed)];
      externalIn :- Add(externalIn, amount);
      return Success(FundedCell(cell, amount));
    }

    method Withdraw(actor: Actor, member: MemberId, amount: u128) returns (r: Result<Outcome, Error>)
      modifies this
      ensures var spec := RoomKernel.ApplyWithdraw(old(View()), actor, member, amount);
              if spec.Failure? then r == Failure(spec.error) else r == Success(spec.value.1) && View() == spec.value.0
    {
      if amount == 0 {
        return Failure(InvalidAmount);
      }
      var m :- Find(members, member, UnknownMember);
      :- RequireOwner(actor, m.owner);
      :- Need(amount <= m.free, InsufficientBalance);
      members := members[member := m.(free := m.free - amount)];
      var withdrawn :- Add(m.withdrawn, amount);
      members := members[member := members[member].(withdrawn := withdrawn)];
      externalOut :- Add(externalOut, amount);
      return Success(Withdrawn(member, m.owner, amount));
    }

    method WithdrawCell(actor: Actor, cell: CellId, amount: u128) returns (r: Result<Outcome, Error>)
      modifies this
      ensures var spec := RoomKernel.ApplyWithdrawCell(old(View()), actor, cell, amount);
              if spec.Failure? then r == Failure(spec.error) else r == Success(spec.value.1) && View() == spec.value.0
    {
      if amount == 0 {
        return Failure(InvalidAmount);
      }
      var c :- Find(cells, cell, UnknownCell);
      :- RequireOwner(actor, c.owner);
      var available :- CellFree(c);
      :- Need(amount <= available, InsufficientBacking);
      cells := cells[cell := c.(balance := c.balance - amount)];
      var withdrawn :- Add(c.withdrawn, amount);
      cells := cells[cell := cells[cell].(withdrawn := withdrawn)];
      externalOut :- Add(externalOut, amount);
      return Success(WithdrawnCell(cell, c.owner, amount));
    }

    method Open(actor: Actor, intent: OpenIntent, observation: Observation, now: u64)
      returns (r: Result<Outcome, Error>)
      modifies this
      ensures var spec := RoomKernel.ApplyOpen(old(View()), actor, intent, observation, now);
              if spec.Failure? then r == Failure(spec.error) else r == Success(spec.value.1) && View() == spec.value.0
    {
      hide RoomKernel.AdmitOpen;
      var receipt :- RoomKernel.AdmitOpen(View(), actor, intent, observation, now);
      r := Enter(receipt);
    }

    /** Debit the member, credit the cell and reserve its payout, field by field. */
    method Enter(receipt: OpenReceipt) returns (r: Result<Outcome, Error>)
      modifies this
      ensures var spec := RoomKernel.OpenPosition(old(View()), receipt);
              if spec.Failure? then r == Failure(spec.error) else r == Success(spec.value.1) && View() == spec.value.0
    {
      var (mid, cid) := (receipt.intent.consent.member, receipt.intent.cell);
      nextPosition :- Next(nextPosition);
      var m :- Find(members, mid, UnknownMember);
      var nonce :- Next(m.nextNonce);
      var debit :- Add(receipt.intent.collateral, receipt.fee);
      var free :- Sub(m.free, debit);
      m := m.(nextNonce := nonce, free := free);
      var used :- Add(m.lossAndFeeUsed, receipt.fee);
      var risk :- Add(m.collateralAtRisk, receipt.intent.collateral);
      m := m.(lossAndFeeUsed := used, collateralAtRisk := risk);
      var notional :- Add(m.openNotional, receipt.entryNotional);
      :- Need(m.openPositions + 1 < U16_LIMIT, Arithmetic);
      members := members[mid := m.(openNotional := notional, openPositions := m.openPositions + 1)];
      var c :- Find(cells, cid, UnknownCell);
      var balance :- Add(c.balance, debit);
      var reserved :- Add(c.reserved, receipt.maximumPayout);
      cells := cells[cid := c.(balance := balance, reserved := reserved)];
      positions := positions[receipt.position := receipt];
      return Success(Opened(receipt));
    }

    method Close(actor: Actor, intent: CloseIntent, observation: Observation, now: u64)
      returns (r: Result<Outcome, Error>)
      modifies this
      ensures var spec := RoomKernel.ApplyClose(old(View()), actor, intent, observation, now);
              if spec.Failure? then r == Failure(spec.error) else r == Success(spec.value.1) && View() == spec.value.0
    {
      hide RoomKernel.AdmitClose, RoomKernel.SettlePosition;
      var p :- RoomKernel.AdmitClose(View(), actor, intent, observation, now);
      r := SettlePosition(p, observation, now, true);
    }

    method SettleMatured(position: PositionId, now: u64) returns (r: Result<Outcome, Error>)
      modifies this
      ensures var spec := RoomKernel.ApplySettleMatured(old(View()), position, now);
              if spec.Failure? then r == Failure(spec.error) else r == Success(spec.value.1) && View() == spec.value.0
    {
      hide RoomKernel.SettlePosition;
      var p :- Find(positions, position, UnknownPosition);
      :- Need(now >= p.intent.maturitySlot, InvalidTime);
      :- Need(KeyOf(p) in terminal, MissingMaturityObservation);
      r := SettlePosition(p, terminal[KeyOf(p)], now, false);
    }

    method RecordTerminal(actor: Actor, position: PositionId, observation: Observation, now: u64)
      returns (r: Result<Outcome, Error>)
      modifies this
      ensures var spec := RoomKernel.ApplyRecordTerminal(old(View()), actor, position, observation, now);
              if spec.Failure? then r == Failure(spec.error) else r == Success(spec.value.1) && View() == spec.value.0
    {
      if actor != Owner(administrator) {
        return Failure(Unauthorized);
      }
      var p :- Find(positions, position, UnknownPosition);
      :- Need(now >= p.intent.maturitySlot, InvalidTime);
      :- Need(observation.publishedSlot == p.intent.maturitySlot, MissingMaturityObservation);
      :- CheckPrice(p.market, observation, p.intent.maturitySlot);
      :- Need(KeyOf(p) !in terminal, AlreadyExists);
      terminal := terminal[KeyOf(p) := observation];
      return Success(RecordedTerminalObservation(observation));
    }

    method SettlePosition(p: OpenReceipt, observation: Observation, now: u64, consumeNonce: bool)
      returns (r: Result<Outcome, Error>)
      modifies this
      ensures var spec := RoomKernel.SettlePosition(old(View()), p, observation, now, consumeNonce);
              if spec.Failure? then r == Failure(spec.error) else r == Success(spec.value.1) && View() == spec.value.0
    {
      hide PayoutAt;
      var (mid, cid) := (p.intent.consent.member, p.intent.cell);
      var payout: u128 :- PayoutAt(p, observation.price);
      var loss: u128 := if payout < p.intent.collateral then p.intent.collateral - payout else 0;
      var m :- Find(members, mid, UnknownMember);
      if consumeNonce {
        var nonce :- Next(m.nextNonce);
        m := m.(nextNonce := nonce);
      }
      var free :- Add(m.free, payout);
      var used :- Add(m.lossAndFeeUsed, loss);
      var risk :- Sub(m.collateralAtRisk, p.intent.collateral);
      var notional :- Sub(m.openNotional, p.entryNotional);
      :- Need(m.openPositions != 0, Invariant);
      members := members[mid := m.(free := free, lossAndFeeUsed := used, collateralAtRisk := risk,
                                   openNotional := notional, openPositions := m.openPositions - 1)];
      var c :- Find(cells, cid, UnknownCell);
      var balance :- Sub(c.balance, payout);
      var reserved :- Sub(c.reserved, p.maximumPayout);
      cells := cells[cid := c.(balance := balance, reserved := reserved)];
      positions := positions - {p.position};
      return Success(Closed(CloseReceipt(p.position, mid, p.owner, cid, p.intent.consent.policyRevision,
                                         p.market.generation,
                                         observation, now, payout, loss, p.maximumPayout)));
    }

    // ---- Reconciliation, by iteration in key order ----

    /** Sum the member's open positions and compare with its stored exposure. */
    method CheckMember(id: MemberId, m: Member) returns (r: Check<Error>)
      ensures r.Pass? <==> RoomKernel.MemberReconciles(m, id, positions)
    {
      hide Total;
      if m.contributed > m.policy.contributionLimit {
        return Fail(Invariant);
      }
      var collateral: u128, notional: u128, count: u16 := 0, 0, 0;
      var rest := positions;
      while rest != map[]
        invariant forall k :: k in rest ==> k in positions && rest[k] == positions[k]
        invariant forall k :: k in positions && k !in rest && positions[k].intent.consent.member == id ==>
                    positions[k].owner == m.owner && positions[k].intent.consent.memberGeneration == m.generation
        invariant collateral + Total(rest, RoomKernel.CollateralOf(id)) == Total(positions, RoomKernel.CollateralOf(id))
        invariant notional + Total(rest, RoomKernel.NotionalOf(id)) == Total(positions, RoomKernel.NotionalOf(id))
        invariant count + Total(rest, RoomKernel.CountOf(id)) == Total(positions, RoomKernel.CountOf(id))
        decreases rest.Keys
      {
        var k := Least(rest.Keys);
        var p := rest[k];
        TotalSplit(rest, k, RoomKernel.CollateralOf(id));
        TotalSplit(rest, k, RoomKernel.NotionalOf(id));
        TotalSplit(rest, k, RoomKernel.CountOf(id));
        if p.intent.consent.member == id {
          if p.owner != m.owner || p.intent.consent.memberGeneration != m.generation {
            return Fail(Invariant);
          }
          if collateral + p.intent.collateral >= U128_LIMIT
             || notional + p.entryNotional >= U128_LIMIT || count + 1 >= U16_LIMIT {
            return Fail(Arithmetic);
          }
          collateral, notional, count := collateral + p.intent.collateral, notional + p.entryNotional, count + 1;
        }
        rest := rest - {k};
      }
      TotalZero(rest, RoomKernel.CollateralOf(id));
      TotalZero(rest, RoomKernel.NotionalOf(id));
      TotalZero(rest, RoomKernel.CountOf(id));
      if collateral != m.collateralAtRisk || notional != m.openNotional || count != m.openPositions {
        return Fail(Invariant);
      }
      if m.lossAndFeeUsed + collateral >= U128_LIMIT {
        return Fail(Arithmetic);
      }
      return Need(m.lossAndFeeUsed + collateral <= m.contributed, Invariant);
    }

    /** Sum the cell's open reserves and compare with its stored reserve and balance. */
    method CheckCell(id: CellId, c: Cell) returns (r: Check<Error>)
      ensures r.Pass? <==> RoomKernel.CellReconciles(c, id, positions, members)
    {
      hide Total;
      var reserved: u128 := 0;
      var rest := positions;
      while rest != map[]
        invariant forall k :: k in rest ==> k in positions && rest[k] == positions[k]
        invariant forall k :: k in positions && k !in rest && positions[k].intent.cell == id ==>
                    && positions[k].backingOwner == c.owner
                    && positions[k].intent.consent.member in members
                    && positions[k].maximumPayout == positions[k].intent.collateral + positions[k].intent.profitCap
        invariant reserved + Total(rest, RoomKernel.ReserveOf(id)) == Total(positions, RoomKernel.ReserveOf(id))
        decreases rest.Keys
      {
        var k := Least(rest.Keys);
        var p := rest[k];
        TotalSplit(rest, k, RoomKernel.ReserveOf(id));
        if p.intent.cell == id {
          if p.backingOwner != c.owner || p.intent.consent.member !in members {
            return Fail(Invariant);
          }
          if p.intent.collateral + p.intent.profitCap >= U128_LIMIT {
            return Fail(Arithmetic);
          }
          if p.maximumPayout != p.intent.collateral + p.intent.profitCap {
            return Fail(Invariant);
          }
          if reserved + p.maximumPayout >= U128_LIMIT {
            return Fail(Arithmetic);
          }
          reserved := reserved + p.maximumPayout;
        }
        rest := rest - {k};
      }
      TotalZero(rest, RoomKernel.ReserveOf(id));
      return Need(reserved == c.reserved && reserved <= c.balance, Invariant);
    }

    /** Passes exactly on the states that reconcile: every member, every cell, and the room's total holdings. */
    method CheckInvariants() returns (r: Check<Error>)
      ensures r.Pass? <==> RoomKernel.Reconciles(View())
    {
      hide Total, RoomKernel.MemberReconciles, RoomKernel.CellReconciles;
      var holdings: u128 := externalOut;
      var restMembers := members;
      while restMembers != map[]
        invariant forall k :: k in restMembers ==> k in members && restMembers[k] == members[k]
        invariant forall k :: k in members && k !in restMembers ==>
            RoomKernel.MemberReconciles(members[k], k, positions)
        invariant holdings + Total(restMembers, RoomKernel.FreeOf())
            == externalOut + Total(members, RoomKernel.FreeOf())
        decreases restMembers.Keys
      {
        var k := Least(restMembers.Keys);
        TotalSplit(restMembers, k, RoomKernel.FreeOf());
        if holdings + restMembers[k].free >= U128_LIMIT {
          return Fail(Arithmetic);
        }
        holdings := holdings + restMembers[k].free;
        var checked := CheckMember(k, restMembers[k]);
        if checked.Fail? {
          return checked;
        }
        restMembers := restMembers - {k};
      }
      TotalZero(restMembers, RoomKernel.FreeOf());
      var restCells := cells;
      while restCells != map[]
        invariant forall k :: k in restCells ==> k in cells && restCells[k] == cells[k]
        invariant forall k :: k in cells && k !in restCells ==>
            RoomKernel.CellReconciles(cells[k], k, positions, members)
        invariant holdings + Total(restCells, RoomKernel.BalanceOf())
               == externalOut + Total(members, RoomKernel.FreeOf()) + Total(cells, RoomKernel.BalanceOf())
        decreases restCells.Keys
      {
        var k := Least(restCells.Keys);
        TotalSplit(restCells, k, RoomKernel.BalanceOf());
        if holdings + restCells[k].balance >= U128_LIMIT {
          return Fail(Arithmetic);
        }
        holdings := holdings + restCells[k].balance;
        var checked := CheckCell(k, restCells[k]);
        if checked.Fail? {
          return checked;
        }
        restCells := restCells - {k};
      }
      TotalZero(restCells, RoomKernel.BalanceOf());
      return Need(holdings == externalIn && forall k :: k in positions ==> positions[k].intent.cell in cells,
                  Invariant);
    }
  }

  /** A transcript that stops replaying at some record is refused as a whole, with that record's error. */
  lemma {:induction false} ReplayStops(id: RoomId, administrator: OwnerId, records: seq<Record>, i: nat)
    requires i <= |records| && RoomRuns.Replay(id, administrator, records[..i]).Failure?
    ensures RoomRuns.Replay(id, administrator, records)
        == Failure(RoomRuns.Replay(id, administrator, records[..i]).error)
    decreases |records| - i
  {
    hide RoomKernel.Execute;
    if i == |records| {
      assert records[..i] == records;
    } else {
      assert records[..i + 1][..i] == records[..i];
      ReplayStops(id, administrator, records, i + 1);
    }
  }
}

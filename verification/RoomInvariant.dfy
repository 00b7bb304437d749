/** The strengthened invariant every command keeps, which makes the runtime reconciliation redundant. */
module RoomInvariant {
  import opened Numbers
  import opened WideMath
  import opened Position
  import opened RoomModel
  import opened RoomKernel
  import opened Sums

  // ---- A payable position ----

  /** What admission established about a receipt: it settles at both ends of its market's band. */
  predicate Payable(p: OpenReceipt) {
    && 0 < p.market.minPrice <= p.observation.price <= p.market.maxPrice
    && p.intent.sizeBase != 0
    && p.maximumPayout == p.intent.collateral + p.intent.profitCap
    && PayoutAt(p, p.market.minPrice).Success?
    && PayoutAt(p, p.market.maxPrice).Success?
  }

  /** The exact profit or loss at a price, floored. */
  function PnlAt(p: OpenReceipt, price: int, divisor: int): int
    requires divisor != 0
  {
    p.intent.sizeBase * Move(p.intent.side, p.observation.price, price) / divisor
  }

  /** payout = clamp(collateral + pnl, 0, collateral + profit cap), whenever it is in range. */
  lemma PayoutIsClamp(p: OpenReceipt, price: u128)
    requires p.market.minPrice <= price <= p.market.maxPrice && 0 < price && 0 < p.observation.price
        && p.intent.sizeBase != 0
    requires p.intent.collateral + p.intent.profitCap < U128_LIMIT && SizePriceDivisor(p.market.assetDecimals).Success?
    ensures var v := PnlAt(p, price, SizePriceDivisor(p.market.assetDecimals).value);
            var C := p.intent.collateral;
            PayoutAt(p, price)
            == if -I128_LIMIT < v < I128_LIMIT && C < I128_LIMIT && -I128_LIMIT <= C + v < I128_LIMIT
               then Success(Max(0, Min(C + v, C + p.intent.profitCap)))
               else Failure(Arithmetic)
  {
    hide FloorMulDiv, CeilMulDiv, UnrealizedPnl, UsdToQuoteFloor, UsdToQuoteCeil;
    PnlIsFloorOfMove(p.intent.side, p.intent.sizeBase, p.observation.price, price, p.market.assetDecimals);
    var v := PnlAt(p, price, SizePriceDivisor(p.market.assetDecimals).value);
    SixDecimalsIsIdentity(0);
    if 0 < p.intent.collateral + v < I128_LIMIT {
      SixDecimalsIsIdentity(p.intent.collateral + v);
    }
  }

  lemma DivisorFromPayout(p: OpenReceipt, price: u128)
    requires PayoutAt(p, price).Success? && p.intent.sizeBase != 0
    ensures SizePriceDivisor(p.market.assetDecimals).Success?
  {
  }

  /** Every price of the band settles, because PnL is monotone and both ends were checked. */
  lemma PayableInBand(p: OpenReceipt, price: u128)
    requires Payable(p) && p.market.minPrice <= price <= p.market.maxPrice
    ensures PayoutAt(p, price).Success? && PayoutAt(p, price).value <= p.maximumPayout
  {
    hide PayoutAt;
    DivisorFromPayout(p, p.market.minPrice);
    var d := SizePriceDivisor(p.market.assetDecimals).value;
    PayoutIsClamp(p, p.market.minPrice);
    PayoutIsClamp(p, p.market.maxPrice);
    PayoutIsClamp(p, price);
    var (side, size, entry) := (p.intent.side, p.intent.sizeBase, p.observation.price);
    if side.Long? {
      PnlMonotone(side, size, entry, p.market.minPrice, price, d);
      PnlMonotone(side, size, entry, price, p.market.maxPrice, d);
    } else {
      PnlMonotone(side, size, entry, p.market.maxPrice, price, d);
      PnlMonotone(side, size, entry, price, p.market.minPrice, d);
    }
  }

  // ---- The invariant ----

  ghost predicate PositionSound(p: OpenReceipt, id: PositionId, s: RoomState) {
    && p.position == id < s.nextPosition
    && Payable(p)
    && p.executedSlot <= s.currentSlot && p.executedSlot < p.intent.maturitySlot
    && p.market.id in s.markets
    && p.market.generation <= s.markets[p.market.id].generation
    && (p.market.generation == s.markets[p.market.id].generation ==> p.market == s.markets[p.market.id])
  }

  predicate SameGeneration(p: OpenReceipt, q: OpenReceipt) {
    p.market.id == q.market.id && p.market.generation == q.market.generation
  }

  /** One market generation has one snapshot. */
  ghost predicate SnapshotsAgree(positions: map<PositionId, OpenReceipt>) {
    forall i, j :: i in positions && j in positions && SameGeneration(positions[i], positions[j])
                   ==> positions[i].market == positions[j].market
  }

  ghost predicate MarketsKeyed(markets: map<MarketId, Market>) {
    forall k :: k in markets ==> markets[k].id == k && ValidateMarket(markets[k]).Pass?
  }

  /** Terminal prices are past, well formed, and inside the band of every position they would settle. */
  ghost predicate TerminalSound(s: RoomState) {
    forall key :: key in s.terminal ==>
      && key.maturitySlot <= s.currentSlot
      && s.terminal[key].market == key.market
      && s.terminal[key].generation == key.generation
      && s.terminal[key].publishedSlot == key.maturitySlot
      && (forall k :: k in s.positions && KeyOf(s.positions[k]) == key ==>
            s.positions[k].market.minPrice <= s.terminal[key].price <= s.positions[k].market.maxPrice)
  }

  ghost predicate Structured(s: RoomState) {
    && (forall id :: id in s.positions ==> PositionSound(s.positions[id], id, s))
    && SnapshotsAgree(s.positions)
    && MarketsKeyed(s.markets)
    && TerminalSound(s)
  }

  ghost predicate Inv(s: RoomState) {
    Reconciles(s) && Structured(s)
  }

  lemma NewRoomInv(id: RoomId, administrator: OwnerId)
    ensures Inv(NewRoom(id, administrator))
  {
    var s := NewRoom(id, administrator);
    TotalZero(s.members, FreeOf());
    TotalZero(s.cells, BalanceOf());
  }

  lemma SlotKeeps(s: RoomState, slot: u64)
    requires Inv(s) && s.currentSlot <= slot
    ensures Inv(s.(currentSlot := slot))
  {
    hide Reconciles, Payable;
    ReconcilesSame(s, s.(currentSlot := slot));
    var s' := s.(currentSlot := slot);
    forall id | id in s'.positions ensures PositionSound(s'.positions[id], id, s') {
      assert PositionSound(s.positions[id], id, s);
    }
  }

  // ---- Commands that move no position ----

  /** A member changes, keeping its identity, its open exposure and its budgets. */
  lemma MemberKeeps(s: RoomState, s': RoomState, id: MemberId)
    requires Inv(s) && id in s.members && id in s'.members
    requires s' == s.(members := s.members[id := s'.members[id]], externalIn := s'.externalIn,
                      externalOut := s'.externalOut)
    requires var (m, m') := (s.members[id], s'.members[id]);
             && m'.owner == m.owner && m'.generation == m.generation
             && m'.collateralAtRisk == m.collateralAtRisk && m'.openNotional == m.openNotional
             && m'.openPositions == m.openPositions && m'.lossAndFeeUsed == m.lossAndFeeUsed
             && m.contributed <= m'.contributed <= m'.policy.contributionLimit
             && s'.externalOut - s.externalOut + m'.free - m.free == s'.externalIn - s.externalIn
    ensures Inv(s')
  {
    hide Total, Structured;
    TotalReplace(s.members, id, s'.members[id], FreeOf());
    forall j | j in s'.members ensures MemberReconciles(s'.members[j], j, s'.positions) {
      assert MemberReconciles(s.members[j], j, s.positions);
    }
    forall j | j in s'.cells ensures CellReconciles(s'.cells[j], j, s'.positions, s'.members) {
      assert CellReconciles(s.cells[j], j, s.positions, s.members);
    }
    StructureKeeps(s, s');
  }

  /** A cell changes, keeping its owner, its reserves and their cover. */
  lemma CellKeeps(s: RoomState, s': RoomState, id: CellId)
    requires Inv(s) && id in s.cells && id in s'.cells
    requires s' == s.(cells := s.cells[id := s'.cells[id]], externalIn := s'.externalIn, externalOut := s'.externalOut)
    requires var (c, c') := (s.cells[id], s'.cells[id]);
             && c'.owner == c.owner && c'.reserved == c.reserved && c'.reserved <= c'.balance
             && s'.externalOut - s.externalOut + c'.balance - c.balance == s'.externalIn - s.externalIn
    ensures Inv(s')
  {
    hide Total, Structured;
    TotalReplace(s.cells, id, s'.cells[id], BalanceOf());
    forall j | j in s'.members ensures MemberReconciles(s'.members[j], j, s'.positions) {
      assert MemberReconciles(s.members[j], j, s.positions);
    }
    forall j | j in s'.cells ensures CellReconciles(s'.cells[j], j, s'.positions, s'.members) {
      assert CellReconciles(s.cells[j], j, s.positions, s.members);
    }
    StructureKeeps(s, s');
  }

  lemma StructureKeeps(s: RoomState, s': RoomState)
    requires Structured(s)
    requires s'.positions == s.positions && s'.markets == s.markets && s'.terminal == s.terminal
    requires s'.nextPosition == s.nextPosition && s'.currentSlot == s.currentSlot
    ensures Structured(s')
  {
    hide PayoutAt;
    forall id | id in s'.positions ensures PositionSound(s'.positions[id], id, s') {
      assert PositionSound(s.positions[id], id, s);
    }
  }

  lemma StrangerHoldsNothing(s: RoomState, id: MemberId)
    requires Reconciles(s) && id !in s.members
    ensures forall k :: k in s.positions ==> s.positions[k].intent.consent.member != id
    ensures Total(s.positions, CollateralOf(id)) == Total(s.positions, NotionalOf(id))
        == Total(s.positions, CountOf(id)) == 0
  {
    hide Total;
    forall k | k in s.positions ensures s.positions[k].intent.consent.member != id {
      assert CellReconciles(s.cells[s.positions[k].intent.cell], s.positions[k].intent.cell, s.positions, s.members);
    }
    TotalZero(s.positions, CollateralOf(id));
    TotalZero(s.positions, NotionalOf(id));
    TotalZero(s.positions, CountOf(id));
  }

  lemma AddMemberKeeps(s: RoomState, id: MemberId, m: Member)
    requires Inv(s) && id !in s.members
    requires m.free == m.contributed == m.lossAndFeeUsed == m.collateralAtRisk == m.openNotional == m.openPositions == 0
    ensures Inv(s.(members := s.members[id := m]))
  {
    hide Total, Structured;
    var s' := s.(members := s.members[id := m]);
    TotalInsert(s.members, id, m, FreeOf());
    StrangerHoldsNothing(s, id);
    forall j | j in s'.members ensures MemberReconciles(s'.members[j], j, s'.positions) {
      assert j in s.members ==> MemberReconciles(s.members[j], j, s.positions);
    }
    forall j | j in s'.cells ensures CellReconciles(s'.cells[j], j, s'.positions, s'.members) {
      assert CellReconciles(s.cells[j], j, s.positions, s.members);
    }
    StructureKeeps(s, s');
  }

  lemma AddCellKeeps(s: RoomState, id: CellId, c: Cell)
    requires Inv(s) && id !in s.cells && c.balance == c.reserved == 0
    ensures Inv(s.(cells := s.cells[id := c]))
  {
    hide Total, Structured;
    var s' := s.(cells := s.cells[id := c]);
    TotalInsert(s.cells, id, c, BalanceOf());
    TotalZero(s.positions, ReserveOf(id));
    forall j | j in s'.members ensures MemberReconciles(s'.members[j], j, s'.positions) {
      assert MemberReconciles(s.members[j], j, s.positions);
    }
    forall j | j in s'.cells ensures CellReconciles(s'.cells[j], j, s'.positions, s'.members) {
      assert j in s.cells ==> CellReconciles(s.cells[j], j, s.positions, s.members);
    }
    StructureKeeps(s, s');
  }

  /** The bookkeeping halves of the invariant read only these fields. */
  lemma ReconcilesSame(s: RoomState, s': RoomState)
    requires Reconciles(s)
    requires s'.members == s.members && s'.cells == s.cells && s'.positions == s.positions
    requires s'.externalIn == s.externalIn && s'.externalOut == s.externalOut
    ensures Reconciles(s')
  {
    hide Total;
  }

  lemma RegisterMarketKeeps(s: RoomState, market: Market)
    requires Inv(s) && ValidateMarket(market).Pass?
    requires market.generation == if market.id in s.markets then s.markets[market.id].generation + 1 else 1
    ensures Inv(s.(markets := s.markets[market.id := market]))
  {
    hide Reconciles, Payable;
    var s' := s.(markets := s.markets[market.id := market]);
    ReconcilesSame(s, s');
    forall id | id in s'.positions ensures PositionSound(s'.positions[id], id, s') {
      assert PositionSound(s.positions[id], id, s);
    }
  }

  lemma RecordTerminalKeeps(s: RoomState, position: PositionId, observation: Observation)
    requires Inv(s) && position in s.positions
    requires var p := s.positions[position];
             && p.intent.maturitySlot <= s.currentSlot
             && observation.publishedSlot == p.intent.maturitySlot
             && CheckPrice(p.market, observation, p.intent.maturitySlot).Pass?
    ensures Inv(s.(terminal := s.terminal[KeyOf(s.positions[position]) := observation]))
  {
    hide Reconciles, Payable;
    var key := KeyOf(s.positions[position]);
    var s' := s.(terminal := s.terminal[key := observation]);
    ReconcilesSame(s, s');
    forall id | id in s'.positions ensures PositionSound(s'.positions[id], id, s') {
      assert PositionSound(s.positions[id], id, s);
    }
    forall k | k in s.positions && KeyOf(s.positions[k]) == key
      ensures s.positions[k].market.minPrice <= observation.price <= s.positions[k].market.maxPrice
    {
      assert s.positions[k].market == s.positions[position].market;
    }
  }

  // ---- Opening ----

  /** What an admitted receipt brings to the state it opens in. */
  ghost predicate Admissible(s: RoomState, r: OpenReceipt) {
    && r.intent.consent.member in s.members
    && r.intent.cell in s.cells
    && r.position == s.nextPosition
    && r.executedSlot == s.currentSlot < r.intent.maturitySlot
    && r.market.id in s.markets && r.market == s.markets[r.market.id]
    && Payable(r) && r.maximumPayout == r.intent.collateral + r.intent.profitCap
    && var (m, c) := (s.members[r.intent.consent.member], s.cells[r.intent.cell]);
       && r.owner == m.owner && r.intent.consent.memberGeneration == m.generation
       && r.backingOwner == c.owner
       && r.intent.collateral + r.fee <= m.free
       && m.lossAndFeeUsed + m.collateralAtRisk + r.intent.collateral + r.fee <= Min(m.policy.lossLimit, m.contributed)
       && r.intent.profitCap <= c.balance - c.reserved
  }

  lemma EntryTermsFacts(s: RoomState, member: Member, intent: OpenIntent, observation: Observation, now: u64)
    requires EntryTerms(s, member, intent, observation, now).Success?
    ensures var t := EntryTerms(s, member, intent, observation, now).value;
            && intent.market in s.markets && t.market == s.markets[intent.market]
            && CheckPrice(t.market, observation, now).Pass?
            && now < intent.maturitySlot && intent.sizeBase != 0
  {
    hide NotionalUsdCeil, CmpProducts, CeilMulDiv, CheckTimeAndLimit, Ascending;
  }

  lemma CheckBackingFacts(cell: Cell, member: Member, intent: OpenIntent, terms: Terms)
    requires CheckBacking(cell, member, intent, terms).Success?
    ensures CheckBacking(cell, member, intent, terms).value == intent.collateral + intent.profitCap
    ensures intent.profitCap <= cell.balance - cell.reserved
  {
    hide CmpProducts, Ascending;
  }

  lemma AdmitOpenIsAdmissible(s: RoomState, actor: Actor, intent: OpenIntent, observation: Observation, now: u64)
    requires MarketsKeyed(s.markets) && s.currentSlot == now && AdmitOpen(s, actor, intent, observation, now).Success?
    ensures Admissible(s, AdmitOpen(s, actor, intent, observation, now).value)
    ensures var r := AdmitOpen(s, actor, intent, observation, now).value;
            r.intent == intent && r.observation == observation
  {
    hide EntryTerms, CheckBacking, PayoutAt, Ascending;
    var member := ConsentMember(s, actor, intent.consent).value;
    var terms := EntryTerms(s, member, intent, observation, now).value;
    EntryTermsFacts(s, member, intent, observation, now);
    CheckBackingFacts(s.cells[intent.cell], member, intent, terms);
  }

  lemma NextPositionIsFresh(s: RoomState)
    requires Structured(s)
    ensures s.nextPosition !in s.positions
  {
    hide Payable;
    assert forall id :: id in s.positions ==> PositionSound(s.positions[id], id, s) ==> id < s.nextPosition;
  }

  /** The moved balances of an entry. */
  lemma OpenShape(s: RoomState, r: OpenReceipt)
    requires OpenPosition(s, r).Success?
    ensures var (mid, cid) := (r.intent.consent.member, r.intent.cell);
            var debit := r.intent.collateral + r.fee;
            var s' := OpenPosition(s, r).value.0;
            && mid in s.members && cid in s.cells && mid in s'.members && cid in s'.cells
            && s' == s.(members := s.members[mid := s'.members[mid]], cells := s.cells[cid := s'.cells[cid]],
                        positions := s.positions[r.position := r], nextPosition := s.nextPosition + 1)
            && s'.cells[cid] == s.cells[cid].(balance := s.cells[cid].balance + debit,
                                              reserved := s.cells[cid].reserved + r.maximumPayout)
            && s'.members[mid] == s.members[mid].(
                 nextNonce := s.members[mid].nextNonce + 1, free := s.members[mid].free - debit,
                 lossAndFeeUsed := s.members[mid].lossAndFeeUsed + r.fee,
                 collateralAtRisk := s.members[mid].collateralAtRisk + r.intent.collateral,
                 openNotional := s.members[mid].openNotional + r.entryNotional,
                 openPositions := s.members[mid].openPositions + 1)
  {
  }

  lemma OpenSums(positions: map<PositionId, OpenReceipt>, r: OpenReceipt, j: u64)
    requires r.position !in positions
    ensures var after := positions[r.position := r];
            && Total(after, CollateralOf(j)) == Total(positions, CollateralOf(j)) + CollateralOf(j)(r)
            && Total(after, NotionalOf(j)) == Total(positions, NotionalOf(j)) + NotionalOf(j)(r)
            && Total(after, CountOf(j)) == Total(positions, CountOf(j)) + CountOf(j)(r)
            && Total(after, ReserveOf(j)) == Total(positions, ReserveOf(j)) + ReserveOf(j)(r)
  {
    hide Total;
    TotalInsert(positions, r.position, r, CollateralOf(j));
    TotalInsert(positions, r.position, r, NotionalOf(j));
    TotalInsert(positions, r.position, r, CountOf(j));
    TotalInsert(positions, r.position, r, ReserveOf(j));
  }

  lemma OpenReconciles(s: RoomState, r: OpenReceipt)
    requires Inv(s) && Admissible(s, r) && OpenPosition(s, r).Success?
    ensures Reconciles(OpenPosition(s, r).value.0)
  {
    hide Total, Payable, OpenPosition, Structured, MemberReconciles, CellReconciles;
    OpenShape(s, r);
    var s' := OpenPosition(s, r).value.0;
    var (mid, cid) := (r.intent.consent.member, r.intent.cell);
    TotalReplace(s.members, mid, s'.members[mid], FreeOf());
    TotalReplace(s.cells, cid, s'.cells[cid], BalanceOf());
    forall j | j in s'.members ensures MemberReconciles(s'.members[j], j, s'.positions) {
      OpenMemberReconciles(s, r, j);
    }
    forall j | j in s'.cells ensures CellReconciles(s'.cells[j], j, s'.positions, s'.members) {
      OpenCellReconciles(s, r, j);
    }
  }

  lemma OpenMemberReconciles(s: RoomState, r: OpenReceipt, j: MemberId)
    requires Inv(s) && Admissible(s, r) && OpenPosition(s, r).Success? && j in s.members
    ensures var s' := OpenPosition(s, r).value.0;
            j in s'.members && MemberReconciles(s'.members[j], j, s'.positions)
  {
    hide Total, PayoutAt, Payable, OpenPosition, Structured, HoldingsReconcile, CellReconciles;
    OpenShape(s, r);
    NextPositionIsFresh(s);
    assert MemberReconciles(s.members[j], j, s.positions);
    OpenSums(s.positions, r, j);
  }

  lemma OpenCellReconciles(s: RoomState, r: OpenReceipt, j: CellId)
    requires Inv(s) && Admissible(s, r) && OpenPosition(s, r).Success? && j in s.cells
    ensures var s' := OpenPosition(s, r).value.0;
            j in s'.cells && CellReconciles(s'.cells[j], j, s'.positions, s'.members)
  {
    hide Total, PayoutAt, Payable, OpenPosition, Structured, HoldingsReconcile, MemberReconciles;
    OpenShape(s, r);
    NextPositionIsFresh(s);
    assert CellReconciles(s.cells[j], j, s.positions, s.members);
    OpenSums(s.positions, r, j);
  }

  lemma OpenStructured(s: RoomState, r: OpenReceipt)
    requires Inv(s) && Admissible(s, r) && OpenPosition(s, r).Success?
    ensures Structured(OpenPosition(s, r).value.0)
  {
    hide Reconciles, Payable;
    var s' := OpenPosition(s, r).value.0;
    forall id | id in s'.positions ensures PositionSound(s'.positions[id], id, s') {
      assert id != r.position ==> PositionSound(s.positions[id], id, s);
    }
    forall id | id in s.positions && SameGeneration(s.positions[id], r) ensures s.positions[id].market == r.market {
      assert PositionSound(s.positions[id], id, s);
    }
    NextPositionIsFresh(s);
    assert KeyOf(r) !in s.terminal;
    assert s'.positions == s.positions[r.position := r];
  }

  // ---- Settling ----

  /** A stored position of a sound room, with the member and cell it belongs to. */
  lemma PositionFacts(s: RoomState, id: PositionId)
    requires Inv(s) && id in s.positions
    ensures var p := s.positions[id];
            && p.position == id && Payable(p)
            && p.intent.consent.member in s.members && p.intent.cell in s.cells
            && var (m, c) := (s.members[p.intent.consent.member], s.cells[p.intent.cell]);
               && p.intent.collateral <= m.collateralAtRisk
               && p.entryNotional <= m.openNotional
               && 1 <= m.openPositions
               && p.maximumPayout <= c.reserved
               && m.free + c.balance <= s.externalIn
               && m.lossAndFeeUsed + m.collateralAtRisk <= m.contributed
               && c.reserved <= c.balance
  {
    hide Total, Payable;
    var p := s.positions[id];
    var (mid, cid) := (p.intent.consent.member, p.intent.cell);
    assert PositionSound(p, id, s);
    assert CellReconciles(s.cells[cid], cid, s.positions, s.members);
    assert MemberReconciles(s.members[mid], mid, s.positions);
    TotalSplit(s.positions, id, CollateralOf(mid));
    TotalSplit(s.positions, id, NotionalOf(mid));
    TotalSplit(s.positions, id, CountOf(mid));
    TotalSplit(s.positions, id, ReserveOf(cid));
    TotalSplit(s.members, mid, FreeOf());
    TotalSplit(s.cells, cid, BalanceOf());
  }

  /** At any price of its band a stored position settles: no balance, budget or counter can refuse it. */
  lemma SettleSucceeds(s: RoomState, id: PositionId, observation: Observation, now: u64, consumeNonce: bool)
    requires Inv(s) && id in s.positions
    requires var p := s.positions[id];
             p.market.minPrice <= observation.price <= p.market.maxPrice
             && (consumeNonce ==>
                   p.intent.consent.member in s.members && s.members[p.intent.consent.member].nextNonce + 1 < U64_LIMIT)
    ensures SettlePosition(s, s.positions[id], observation, now, consumeNonce).Success?
  {
    hide Total, PayoutAt, Reconciles, Structured;
    PositionFacts(s, id);
    PayableInBand(s.positions[id], observation.price);
  }

  lemma SettleSums(positions: map<PositionId, OpenReceipt>, id: PositionId, j: u64)
    requires id in positions
    ensures var after := positions - {id};
            && Total(after, CollateralOf(j)) == Total(positions, CollateralOf(j)) - CollateralOf(j)(positions[id])
            && Total(after, NotionalOf(j)) == Total(positions, NotionalOf(j)) - NotionalOf(j)(positions[id])
            && Total(after, CountOf(j)) == Total(positions, CountOf(j)) - CountOf(j)(positions[id])
            && Total(after, ReserveOf(j)) == Total(positions, ReserveOf(j)) - ReserveOf(j)(positions[id])
  {
    hide Total;
    TotalSplit(positions, id, CollateralOf(j));
    TotalSplit(positions, id, NotionalOf(j));
    TotalSplit(positions, id, CountOf(j));
    TotalSplit(positions, id, ReserveOf(j));
  }

  /** The moved balances of a settlement, in terms of its payout. */
  lemma SettleShape(s: RoomState, p: OpenReceipt, observation: Observation, now: u64, consumeNonce: bool)
    requires SettlePosition(s, p, observation, now, consumeNonce).Success?
    ensures PayoutAt(p, observation.price).Success? && p.intent.consent.member in s.members && p.intent.cell in s.cells
    ensures var s' := SettlePosition(s, p, observation, now, consumeNonce).value.0;
            var payout := PayoutAt(p, observation.price).value;
            var (mid, cid) := (p.intent.consent.member, p.intent.cell);
            && mid in s'.members && cid in s'.cells
            && s' == s.(members := s.members[mid := s'.members[mid]], cells := s.cells[cid := s'.cells[cid]],
                        positions := s.positions - {p.position})
            && s'.members[mid] == s.members[mid].(
                 nextNonce := s'.members[mid].nextNonce, free := s.members[mid].free + payout,
                 lossAndFeeUsed := s.members[mid].lossAndFeeUsed + Max(0, p.intent.collateral - payout),
                 collateralAtRisk := s.members[mid].collateralAtRisk - p.intent.collateral,
                 openNotional := s.members[mid].openNotional - p.entryNotional,
                 openPositions := s.members[mid].openPositions - 1)
            && s'.cells[cid] == s.cells[cid].(balance := s.cells[cid].balance - payout,
                                              reserved := s.cells[cid].reserved - p.maximumPayout)
  {
    hide PayoutAt;
  }

  lemma StoredPositionSound(s: RoomState, id: PositionId)
    requires Structured(s) && id in s.positions
    ensures s.positions[id].position == id && Payable(s.positions[id])
  {
    hide Payable;
    assert PositionSound(s.positions[id], id, s);
  }

  lemma SettleMemberReconciles(s: RoomState, id: PositionId, observation: Observation, now: u64, consumeNonce: bool,
                               j: MemberId)
    requires Inv(s) && id in s.positions && j in s.members
    requires SettlePosition(s, s.positions[id], observation, now, consumeNonce).Success?
    ensures var s' := SettlePosition(s, s.positions[id], observation, now, consumeNonce).value.0;
            j in s'.members && MemberReconciles(s'.members[j], j, s'.positions)
  {
    hide Total, PayoutAt, SettlePosition, Payable, Structured, HoldingsReconcile, CellReconciles;
    StoredPositionSound(s, id);
    assert MemberReconciles(s.members[j], j, s.positions);
    SettleShape(s, s.positions[id], observation, now, consumeNonce);
    SettleSums(s.positions, id, j);
  }

  lemma SettleCellReconciles(s: RoomState, id: PositionId, observation: Observation, now: u64, consumeNonce: bool,
                             j: CellId)
    requires Inv(s) && id in s.positions && j in s.cells
    requires SettlePosition(s, s.positions[id], observation, now, consumeNonce).Success?
    ensures var s' := SettlePosition(s, s.positions[id], observation, now, consumeNonce).value.0;
            j in s'.cells && CellReconciles(s'.cells[j], j, s'.positions, s'.members)
  {
    hide Total, PayoutAt, SettlePosition, Payable, Structured, HoldingsReconcile, MemberReconciles;
    StoredPositionSound(s, id);
    var p := s.positions[id];
    assert CellReconciles(s.cells[j], j, s.positions, s.members);
    SettleShape(s, p, observation, now, consumeNonce);
    SettleSums(s.positions, id, j);
    PayoutInBand(p, observation.price);
  }

  lemma PayoutInBand(p: OpenReceipt, price: u128)
    requires Payable(p) && PayoutAt(p, price).Success?
    ensures PayoutAt(p, price).value <= p.maximumPayout
  {
    PayableInBand(p, price);
  }

  lemma SettleReconciles(s: RoomState, id: PositionId, observation: Observation, now: u64, consumeNonce: bool)
    requires Inv(s) && id in s.positions
    requires SettlePosition(s, s.positions[id], observation, now, consumeNonce).Success?
    ensures Reconciles(SettlePosition(s, s.positions[id], observation, now, consumeNonce).value.0)
  {
    hide Total, PayoutAt, Payable, SettlePosition, Structured, MemberReconciles, CellReconciles;
    SettleShape(s, s.positions[id], observation, now, consumeNonce);
    StoredPositionSound(s, id);
    var s' := SettlePosition(s, s.positions[id], observation, now, consumeNonce).value.0;
    var (mid, cid) := (s.positions[id].intent.consent.member, s.positions[id].intent.cell);
    TotalReplace(s.members, mid, s'.members[mid], FreeOf());
    TotalReplace(s.cells, cid, s'.cells[cid], BalanceOf());
    forall j | j in s'.members ensures MemberReconciles(s'.members[j], j, s'.positions) {
      SettleMemberReconciles(s, id, observation, now, consumeNonce, j);
    }
    forall j | j in s'.cells ensures CellReconciles(s'.cells[j], j, s'.positions, s'.members) {
      SettleCellReconciles(s, id, observation, now, consumeNonce, j);
    }
  }

  lemma SettleStructured(s: RoomState, id: PositionId, observation: Observation, now: u64, consumeNonce: bool)
    requires Inv(s) && id in s.positions
    requires SettlePosition(s, s.positions[id], observation, now, consumeNonce).Success?
    ensures Structured(SettlePosition(s, s.positions[id], observation, now, consumeNonce).value.0)
  {
    hide Total, PayoutAt, Reconciles;
    var s' := SettlePosition(s, s.positions[id], observation, now, consumeNonce).value.0;
    forall k | k in s'.positions ensures PositionSound(s'.positions[k], k, s') {
      assert PositionSound(s.positions[k], k, s);
    }
  }

  lemma SettleKeeps(s: RoomState, id: PositionId, observation: Observation, now: u64, consumeNonce: bool)
    requires Inv(s) && id in s.positions
    requires SettlePosition(s, s.positions[id], observation, now, consumeNonce).Success?
    ensures Inv(SettlePosition(s, s.positions[id], observation, now, consumeNonce).value.0)
  {
    hide Reconciles, Structured, SettlePosition;
    SettleReconciles(s, id, observation, now, consumeNonce);
    SettleStructured(s, id, observation, now, consumeNonce);
  }
}

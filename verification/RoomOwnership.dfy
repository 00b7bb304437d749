/** Who can ever be paid: owners are fixed at registration, and money leaves a room only to them. */
module RoomOwnership {
  import opened RoomModel
  import opened RoomKernel
  import opened RoomInvariant
  import opened RoomRuns
  import opened RoomHistory

  /** Members and cells are never removed and never change hands. */
  predicate OwnersKept(s: RoomState, s': RoomState) {
    && (forall id :: id in s.members ==> id in s'.members && s'.members[id].owner == s.members[id].owner)
    && (forall id :: id in s.cells ==> id in s'.cells && s'.cells[id].owner == s.cells[id].owner)
  }

  lemma OwnersMoved(s: RoomState, c: Command)
    requires InForce(s, c)
    ensures OwnersKept(s, Apply(s, c).value.0)
  {
    hide Inv, OpenPosition, SettlePosition, Admissible, Apply;
    if c.Open? {
      var r := OpenMoves(s, c);
      OpenShape(s, r);
    } else if Settles(c) {
      CloseMoves(s, c);
      SettleShape(s, s.positions[SettledPosition(c)], SettledPrice(s, c), s.currentSlot, c.Close?);
    } else {
      OwnersUntouched(s, c);
    }
  }

  lemma OwnersUntouched(s: RoomState, c: Command)
    requires Apply(s, c).Success? && !c.Open? && !Settles(c)
    ensures OwnersKept(s, Apply(s, c).value.0)
  {
    hide ValidatePolicy, ValidateUnderwriting, ValidateMarket, Add, Sub, Next;
  }

  /**
   * A payment out of the room, or into a member's balance, names the registered owner; a withdrawal was the owner's own
   * command.
   */
  predicate PaidToOwner(s: RoomState, r: Record) {
    match r.outcome
    case Withdrawn(member, owner, _) =>
      && r.command.Withdraw? && r.command.actor == Owner(owner)
      && member in s.members && s.members[member].owner == owner
    case WithdrawnCell(cell, owner, _) =>
      && r.command.WithdrawCell? && r.command.actor == Owner(owner)
      && cell in s.cells && s.cells[cell].owner == owner
    case Closed(c) => c.member in s.members && s.members[c.member].owner == c.owner
    case _ => true
  }

  lemma PaymentStep(s: RoomState, c: Command)
    requires InForce(s, c)
    ensures PaidToOwner(Apply(s, c).value.0, Record(c, Apply(s, c).value.1))
  {
    hide Reconciles, Structured, OpenPosition, SettlePosition, Admissible, Apply, Payable;
    if c.Open? {
      var r := OpenMoves(s, c);
      OpenReports(s, r);
    } else if Settles(c) {
      CloseMoves(s, c);
      ClosePaysOwner(s, c);
    } else {
      MoneyPaysOwner(s, c);
    }
  }

  lemma StoredOwner(s: RoomState, k: PositionId)
    requires Inv(s) && k in s.positions && s.positions[k].intent.consent.member in s.members
    ensures s.members[s.positions[k].intent.consent.member].owner == s.positions[k].owner
  {
    hide Structured, CellReconciles, HoldingsReconcile;
    var member := s.positions[k].intent.consent.member;
    assert MemberReconciles(s.members[member], member, s.positions);
  }

  lemma ClosePaysOwner(s: RoomState, c: Command)
    requires InForce(s, c) && Settles(c) && SettledPosition(c) in s.positions
    requires c.SettleMatured? ==> KeyOf(s.positions[c.position]) in s.terminal
    requires var settled := SettlePosition(s, s.positions[SettledPosition(c)], SettledPrice(s, c), s.currentSlot,
                                           c.Close?);
             settled.Success? && Apply(s, c) == settled
    ensures PaidToOwner(Apply(s, c).value.0, Record(c, Apply(s, c).value.1))
  {
    hide Inv, Apply, PayoutAt;
    var p := s.positions[SettledPosition(c)];
    SettleShape(s, p, SettledPrice(s, c), s.currentSlot, c.Close?);
    StoredOwner(s, SettledPosition(c));
  }

  lemma MoneyPaysOwner(s: RoomState, c: Command)
    requires Apply(s, c).Success? && !c.Open? && !Settles(c)
    ensures PaidToOwner(Apply(s, c).value.0, Record(c, Apply(s, c).value.1))
  {
    hide ValidatePolicy, ValidateUnderwriting, ValidateMarket, Add, Sub, Next;
  }

  ghost predicate AllPaidToOwners(s: RoomState) {
    forall k :: 0 <= k < |s.records| ==> PaidToOwner(s, s.records[k])
  }

  lemma PaidStays(s: RoomState, s': RoomState, r: Record)
    requires OwnersKept(s, s') && PaidToOwner(s, r)
    ensures PaidToOwner(s', r)
  {
  }

  lemma ExecutePaysOwners(s: RoomState, c: Command)
    requires Inv(s) && AllPaidToOwners(s) && Execute(s, c).Success?
    ensures AllPaidToOwners(Execute(s, c).value.0) && OwnersKept(s, Execute(s, c).value.0)
  {
    hide Inv, Reconciles, Apply, PaidToOwner;
    var s1 := WithSlot(s, c);
    if SlotOf(c).Some? {
      SlotKeeps(s, SlotOf(c).value);
    }
    OwnersMoved(s1, c);
    PaymentStep(s1, c);
    IdentityKept(s, c);
    var s' := Execute(s, c).value.0;
    forall k | 0 <= k < |s'.records| ensures PaidToOwner(s', s'.records[k]) {
      if k < |s.records| {
        PaidStays(s, s', s.records[k]);
      } else {
        PaidStays(Apply(s1, c).value.0, s', s'.records[k]);
      }
    }
  }

  lemma {:induction false} PaidAfter(id: RoomId, administrator: OwnerId, commands: seq<Command>)
    ensures AllPaidToOwners(After(NewRoom(id, administrator), commands))
  {
    hide Inv, Execute, PaidToOwner;
    if commands != [] {
      var (init, c) := (commands[..|commands| - 1], commands[|commands| - 1]);
      PaidAfter(id, administrator, init);
      AfterInv(id, administrator, init);
      if Execute(After(NewRoom(id, administrator), init), c).Success? {
        ExecutePaysOwners(After(NewRoom(id, administrator), init), c);
      }
    }
  }

  /**
   * In every reachable room, every withdrawal ever made was its registered owner's own, and every settlement paid the
   * registered owner.
   */
  lemma OnlyOwnersArePaid(s: RoomState, k: nat)
    requires Reachable(s) && k < |s.records|
    ensures PaidToOwner(s, s.records[k])
  {
    hide PaidToOwner, After;
    var commands :| s == After(NewRoom(s.id, s.administrator), commands);
    PaidAfter(s.id, s.administrator, commands);
  }
}

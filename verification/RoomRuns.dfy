/** Theorems over every run of a room. */
module RoomRuns {
  import opened Numbers
  import opened RoomModel
  import opened RoomKernel
  import opened RoomInvariant
  import opened Sums

  // ---- Every command keeps the invariant ----

  lemma MemberMoneyKeeps(s: RoomState, c: Command)
    requires Inv(s) && Apply(s, c).Success? && (c.Contribute? || c.Withdraw? || c.ChangePolicy?)
    ensures Inv(Apply(s, c).value.0)
  {
    hide Total, Structured, HoldingsReconcile, CellReconciles, ValidatePolicy;
    assert MemberReconciles(s.members[c.member], c.member, s.positions);
    MemberKeeps(s, Apply(s, c).value.0, c.member);
  }

  lemma CellMoneyKeeps(s: RoomState, c: Command)
    requires Inv(s) && Apply(s, c).Success? && (c.FundCell? || c.WithdrawCell? || c.ChangeCellPolicy?)
    ensures Inv(Apply(s, c).value.0)
  {
    hide Total, Structured, HoldingsReconcile, MemberReconciles, ValidateUnderwriting;
    assert CellReconciles(s.cells[c.cell], c.cell, s.positions, s.members);
    CellKeeps(s, Apply(s, c).value.0, c.cell);
  }

  /** One command, once its slot is in force, keeps the whole strengthened invariant. */
  lemma ApplyKeeps(s: RoomState, c: Command)
    requires Inv(s) && Apply(s, c).Success? && (SlotOf(c).Some? ==> SlotOf(c).value == s.currentSlot)
    ensures Inv(Apply(s, c).value.0)
  {
    hide Reconciles, Structured, AdmitOpen, AdmitClose, OpenPosition, SettlePosition;
    match c
    case RegisterMarket(_, market) => RegisterMarketKeeps(s, market);
    case AddCell(actor, cell, policy) => AddCellKeeps(s, cell, Cell(actor.owner, 1, policy, 0, 0, 0, 0));
    case AddMember(actor, member, delegate, policy) =>
      AddMemberKeeps(s, member, Member(actor.owner, delegate, 1, 1, policy, 0, 0, 0, 0, 0, 0, 0, 0));
    case Open(actor, intent, observation, now) =>
      OpenKeeps(s, actor, intent, observation, now);
    case Close(actor, intent, observation, now) =>
      AdmittedIsStored(s, actor, intent, observation, now);
      SettleKeeps(s, intent.position, observation, now, true);
    case RecordTerminalObservation(_, position, observation, _) =>
      RecordTerminalKeeps(s, position, observation);
    case SettleMatured(position, now) =>
      SettleKeeps(s, position, s.terminal[KeyOf(s.positions[position])], now, false);
    case _ =>
      if c.FundCell? || c.WithdrawCell? || c.ChangeCellPolicy? {
        CellMoneyKeeps(s, c);
      } else {
        MemberMoneyKeeps(s, c);
      }
  }

  lemma OpenKeeps(s: RoomState, actor: Actor, intent: OpenIntent, observation: Observation, now: u64)
    requires Inv(s) && ApplyOpen(s, actor, intent, observation, now).Success? && now == s.currentSlot
    ensures Inv(ApplyOpen(s, actor, intent, observation, now).value.0)
  {
    hide Reconciles, AdmitOpen, OpenPosition;
    AdmitOpenIsAdmissible(s, actor, intent, observation, now);
    var r := AdmitOpen(s, actor, intent, observation, now).value;
    OpenReconciles(s, r);
    OpenStructured(s, r);
  }

  lemma AdmittedIsStored(s: RoomState, actor: Actor, intent: CloseIntent, observation: Observation, now: u64)
    requires AdmitClose(s, actor, intent, observation, now).Success?
    ensures intent.position in s.positions && AdmitClose(s, actor, intent, observation, now).value
        == s.positions[intent.position]
    ensures now >= s.positions[intent.position].intent.maturitySlot ==>
              var key := KeyOf(s.positions[intent.position]); key in s.terminal && s.terminal[key] == observation
  {
  }

  /** The runtime reconciliation is redundant: after a successful `apply` it never refuses. */
  lemma ReconciliationIsRedundant(s: RoomState, c: Command)
    requires Inv(s)
    ensures Planned(s, c).Success? ==> Reconciles(Planned(s, c).value.0) && Structured(Planned(s, c).value.0)
    ensures Execute(s, c).Success? <==> Planned(s, c).Success?
    ensures Execute(s, c).Failure? ==> Execute(s, c) == Failure(Planned(s, c).error)
  {
    hide Reconciles, Structured, Apply;
    if Planned(s, c).Success? {
      if SlotOf(c).Some? {
        SlotKeeps(s, SlotOf(c).value);
      }
      ApplyKeeps(WithSlot(s, c), c);
    }
  }

  lemma ExecuteKeeps(s: RoomState, c: Command)
    requires Inv(s) && Execute(s, c).Success?
    ensures Inv(Execute(s, c).value.0)
  {
    hide Structured, Reconciles, Apply;
    ReconciliationIsRedundant(s, c);
    var s' := Planned(s, c).value.0;
    ReconcilesSame(s', Execute(s, c).value.0);
    StructureKeeps(s', Execute(s, c).value.0);
  }

  // ---- Reachable rooms ----

  /** The room after a list of attempted commands; a refused command changes nothing. */
  ghost function After(s: RoomState, commands: seq<Command>): RoomState {
    if commands == [] then s
    else
      var before := After(s, commands[..|commands| - 1]);
      var r := Execute(before, commands[|commands| - 1]);
      if r.Success? then r.value.0 else before
  }

  ghost predicate Reachable(s: RoomState) {
    exists commands: seq<Command> :: s == After(NewRoom(s.id, s.administrator), commands)
  }

  lemma {:induction false} AfterInv(id: RoomId, administrator: OwnerId, commands: seq<Command>)
    ensures Inv(After(NewRoom(id, administrator), commands))
    ensures After(NewRoom(id, administrator), commands).id == id
    ensures After(NewRoom(id, administrator), commands).administrator == administrator
  {
    hide Structured, Reconciles, Apply;
    if commands == [] {
      NewRoomInv(id, administrator);
    } else {
      AfterInv(id, administrator, commands[..|commands| - 1]);
      var before := After(NewRoom(id, administrator), commands[..|commands| - 1]);
      var c := commands[|commands| - 1];
      if Execute(before, c).Success? {
        ExecuteKeeps(before, c);
        IdentityKept(before, c);
      }
    }
  }

  lemma IdentityKept(s: RoomState, c: Command)
    requires Execute(s, c).Success?
    ensures var s' := Execute(s, c).value.0; s'.id == s.id && s'.administrator == s.administrator
    ensures var (s', outcome) := Execute(s, c).value; s'.records == s.records + [Record(c, outcome)]
  {
    hide Reconciles, AdmitOpen, AdmitClose, OpenPosition, SettlePosition, ValidatePolicy, ValidateUnderwriting,
         ValidateMarket;
    var s1 := WithSlot(s, c);
    match c
    case Open(actor, intent, observation, now) => OpenShape(s1, AdmitOpen(s1, actor, intent, observation, now).value);
    case Close(actor, intent, observation, now) =>
      SettleShape(s1, AdmitClose(s1, actor, intent, observation, now).value, observation, now, true);
    case SettleMatured(position, now) =>
      SettleShape(s1, s1.positions[position], s1.terminal[KeyOf(s1.positions[position])], now, false);
    case _ =>
  }

  lemma ReachableStep(s: RoomState, c: Command)
    requires Reachable(s) && Execute(s, c).Success?
    ensures Reachable(Execute(s, c).value.0)
  {
    hide Execute;
    var commands :| s == After(NewRoom(s.id, s.administrator), commands);
    IdentityKept(s, c);
    var longer := commands + [c];
    assert longer[..|commands|] == commands;
    assert After(NewRoom(s.id, s.administrator), longer) == Execute(s, c).value.0;
  }

  lemma ReachableInv(s: RoomState)
    requires Reachable(s)
    ensures Inv(s)
  {
    hide Inv, After;
    var commands :| s == After(NewRoom(s.id, s.administrator), commands);
    AfterInv(s.id, s.administrator, commands);
  }

  // ---- Authorization revisions ----

  predicate RevisionsGrow(before: map<MemberId, Member>, after: map<MemberId, Member>) {
    forall id :: id in before ==> id in after && before[id].policyRevision <= after[id].policyRevision
  }

  /** No command removes a member or lowers its authorization revision; changing its policy raises it. */
  lemma RevisionsKept(s: RoomState, c: Command)
    requires Execute(s, c).Success?
    ensures RevisionsGrow(s.members, Execute(s, c).value.0.members)
    ensures c.ChangePolicy? ==>
              && c.member in s.members
              && Execute(s, c).value.0.members[c.member].policyRevision == s.members[c.member].policyRevision + 1
  {
    hide Reconciles, Apply;
    RevisionsMoved(WithSlot(s, c), c);
  }

  lemma RevisionsMoved(s: RoomState, c: Command)
    requires Apply(s, c).Success?
    ensures RevisionsGrow(s.members, Apply(s, c).value.0.members)
    ensures c.ChangePolicy? ==>
              && c.member in s.members
              && Apply(s, c).value.0.members[c.member].policyRevision == s.members[c.member].policyRevision + 1
  {
    hide AdmitOpen, AdmitClose, OpenPosition, SettlePosition, ValidatePolicy, ValidateUnderwriting, ValidateMarket,
         Add, Sub;
    match c
    case Open(actor, intent, observation, now) => OpenShape(s, AdmitOpen(s, actor, intent, observation, now).value);
    case Close(actor, intent, observation, now) =>
      SettleShape(s, AdmitClose(s, actor, intent, observation, now).value, observation, now, true);
    case SettleMatured(position, now) =>
      SettleShape(s, s.positions[position], s.terminal[KeyOf(s.positions[position])], now, false);
    case _ =>
  }

  // ---- Settlement liveness ----

  /** With its terminal price recorded, an open position can always be settled, by anyone, at any later slot. */
  lemma MaturedAlwaysSettles(s: RoomState, position: PositionId, now: u64)
    requires Reachable(s) && position in s.positions
    requires var p := s.positions[position];
             KeyOf(p) in s.terminal && p.intent.maturitySlot <= now && s.currentSlot <= now
    ensures Execute(s, SettleMatured(position, now)).Success?
    ensures var (s', outcome) := Execute(s, SettleMatured(position, now)).value;
            && position !in s'.positions
            && outcome.Closed?
            && PayoutAt(s.positions[position], s.terminal[KeyOf(s.positions[position])].price)
                == Success(outcome.closed.payout)
  {
    hide Reconciles, Apply, PayoutAt;
    ReachableInv(s);
    SlotKeeps(s, now);
    MaturedApplies(s.(currentSlot := now), position, now);
    ReconciliationIsRedundant(s, SettleMatured(position, now));
  }

  lemma MaturedApplies(s: RoomState, position: PositionId, now: u64)
    requires Inv(s) && position in s.positions
    requires KeyOf(s.positions[position]) in s.terminal && s.positions[position].intent.maturitySlot <= now
    ensures Apply(s, SettleMatured(position, now)).Success?
    ensures var (s', outcome) := Apply(s, SettleMatured(position, now)).value;
            && position !in s'.positions && outcome.Closed?
            && PayoutAt(s.positions[position], s.terminal[KeyOf(s.positions[position])].price)
                == Success(outcome.closed.payout)
  {
    hide Reconciles, PayoutAt, Payable;
    SettleSucceeds(s, position, s.terminal[KeyOf(s.positions[position])], now, false);
    StoredPositionSound(s, position);
  }

  /**
   * An in-band observation never blocks an authorised exit: only authorization, time, price limits or the nonce can.
   */
  lemma AdmittedCloseSettles(s: RoomState, actor: Actor, intent: CloseIntent, observation: Observation, now: u64)
    requires Reachable(s) && s.currentSlot <= now && AdmitClose(s, actor, intent, observation, now).Success?
    requires intent.consent.member in s.members && s.members[intent.consent.member].nextNonce + 1 < U64_LIMIT
    ensures Execute(s, Close(actor, intent, observation, now)).Success?
  {
    hide Reconciles, Structured, SettlePosition;
    ReachableInv(s);
    SlotKeeps(s, now);
    var s1 := s.(currentSlot := now);
    AdmitCloseSameSlot(s, s1, actor, intent, observation, now);
    SettleSucceeds(s1, intent.position, observation, now, true);
    ReconciliationIsRedundant(s, Close(actor, intent, observation, now));
  }

  lemma AdmitCloseSameSlot(s: RoomState, s1: RoomState, actor: Actor, intent: CloseIntent, observation: Observation,
                           now: u64)
    requires s1 == s.(currentSlot := now) && AdmitClose(s, actor, intent, observation, now).Success?
    ensures AdmitClose(s1, actor, intent, observation, now) == AdmitClose(s, actor, intent, observation, now)
    ensures intent.position in s.positions
    ensures var p := s.positions[intent.position];
            && AdmitClose(s, actor, intent, observation, now).value == p
            && p.intent.consent.member == intent.consent.member
            && p.market.minPrice <= observation.price <= p.market.maxPrice
  {
    hide CheckTimeAndLimit;
  }

  // ---- Replay ----

  ghost function Replay(id: RoomId, administrator: OwnerId, records: seq<Record>): Result<RoomState, Error> {
    if records == [] then
      Success(NewRoom(id, administrator))
    else
      var before :- Replay(id, administrator, records[..|records| - 1]);
      var last := records[|records| - 1];
      var executed :- Execute(before, last.command);
      :- Need(executed.1 == last.outcome, ReplayMismatch);
      Success(executed.0)
  }

  lemma ReplayStep(id: RoomId, administrator: OwnerId, s: RoomState, c: Command)
    requires Replay(id, administrator, s.records) == Success(s) && Execute(s, c).Success?
    ensures Replay(id, administrator, Execute(s, c).value.0.records) == Success(Execute(s, c).value.0)
  {
    hide Reconciles, Planned;
    var (s', outcome) := Execute(s, c).value;
    IdentityKept(s, c);
    assert s'.records[..|s'.records| - 1] == s.records;
  }

  /** Every reachable room is rebuilt exactly from its own transcript. */
  lemma {:induction false} ReplayComplete(id: RoomId, administrator: OwnerId, commands: seq<Command>)
    ensures var s := After(NewRoom(id, administrator), commands); Replay(id, administrator, s.records) == Success(s)
  {
    hide Execute;
    if commands != [] {
      ReplayComplete(id, administrator, commands[..|commands| - 1]);
      var before := After(NewRoom(id, administrator), commands[..|commands| - 1]);
      if Execute(before, commands[|commands| - 1]).Success? {
        ReplayStep(id, administrator, before, commands[|commands| - 1]);
      }
    }
  }

  function CommandsOf(records: seq<Record>): seq<Command> {
    seq(|records|, i requires 0 <= i < |records| => records[i].command)
  }

  /** An accepted transcript yields a reachable room whose records are the ones supplied. */
  lemma {:induction false} ReplaySound(id: RoomId, administrator: OwnerId, records: seq<Record>)
    requires Replay(id, administrator, records).Success?
    ensures var s := Replay(id, administrator, records).value;
            s.records == records && s == After(NewRoom(id, administrator), CommandsOf(records))
  {
    hide Execute;
    if records != [] {
      var (init, last) := (records[..|records| - 1], records[|records| - 1]);
      ReplaySound(id, administrator, init);
      IdentityKept(Replay(id, administrator, init).value, last.command);
      assert CommandsOf(records)[..|records| - 1] == CommandsOf(init);
      assert records == init + [last];
    }
  }
}

/**
 * Who may do what in a room, told from its own transcript: owners are whoever registered, delegates whoever the last
 * policy named, and every trade is consented to for that room, that registration and that turn.
 */
module RoomAuthority {
  import opened Numbers
  import opened RoomModel
  import opened RoomKernel
  import opened RoomInvariant
  import opened RoomRuns
  import opened RoomCommands

  // ---- What the transcript tells ----

  /** The owner that registered a member. */
  function OwnerTold(records: seq<Record>, id: MemberId): Option<OwnerId> {
    if records == [] then None
    else
      var last := records[|records| - 1].command;
      if last.AddMember? && last.member == id && last.actor.Owner? then Some(last.actor.owner)
      else OwnerTold(records[..|records| - 1], id)
  }

  /** The owner that registered a cell. */
  function CellOwnerTold(records: seq<Record>, id: CellId): Option<OwnerId> {
    if records == [] then None
    else
      var last := records[|records| - 1].command;
      if last.AddCell? && last.cell == id && last.actor.Owner? then Some(last.actor.owner)
      else CellOwnerTold(records[..|records| - 1], id)
  }

  /** A record that installs a policy, and names a delegate or none, for a member. */
  predicate Installs(c: Command, id: MemberId) {
    (c.AddMember? || c.ChangePolicy?) && c.member == id
  }

  /** The delegate the last policy of a member named. */
  function DelegateTold(records: seq<Record>, id: MemberId): Option<DelegateId> {
    if records == [] then None
    else
      var last := records[|records| - 1].command;
      if Installs(last, id) then last.delegate else DelegateTold(records[..|records| - 1], id)
  }

  /** How many policies a member has had. */
  function PoliciesTold(records: seq<Record>, id: MemberId): nat {
    if records == [] then 0
    else PoliciesTold(records[..|records| - 1], id) + (if Installs(records[|records| - 1].command, id) then 1 else 0)
  }

  /** How many policies a cell has had. */
  function CellPoliciesTold(records: seq<Record>, id: CellId): nat {
    if records == [] then 0
    else
      var last := records[|records| - 1].command;
      CellPoliciesTold(records[..|records| - 1], id)
      + (if (last.AddCell? || last.ChangeCellPolicy?) && last.cell == id then 1 else 0)
  }

  predicate Trades(c: Command) {
    c.Open? || c.Close?
  }

  function ConsentIn(c: Command): Consent
    requires Trades(c)
  {
    if c.Open? then c.openIntent.consent else c.closeIntent.consent
  }

  /** How many trades were made for a member. */
  function TradesTold(records: seq<Record>, id: MemberId): nat {
    if records == [] then 0
    else
      var last := records[|records| - 1].command;
      TradesTold(records[..|records| - 1], id) + (if Trades(last) && ConsentIn(last).member == id then 1 else 0)
  }

  lemma RecordTells(records: seq<Record>, r: Record, id: u64)
    ensures OwnerTold(records + [r], id)
            == (if r.command.AddMember? && r.command.member == id && r.command.actor.Owner?
                then Some(r.command.actor.owner) else OwnerTold(records, id))
    ensures CellOwnerTold(records + [r], id)
            == (if r.command.AddCell? && r.command.cell == id && r.command.actor.Owner?
                then Some(r.command.actor.owner) else CellOwnerTold(records, id))
    ensures DelegateTold(records + [r], id)
            == (if Installs(r.command, id) then r.command.delegate else DelegateTold(records, id))
    ensures PoliciesTold(records + [r], id) == PoliciesTold(records, id) + (if Installs(r.command, id) then 1 else 0)
    ensures CellPoliciesTold(records + [r], id)
            == CellPoliciesTold(records, id)
               + (if (r.command.AddCell? || r.command.ChangeCellPolicy?) && r.command.cell == id then 1 else 0)
    ensures TradesTold(records + [r], id)
            == TradesTold(records, id) + (if Trades(r.command) && ConsentIn(r.command).member == id then 1 else 0)
  {
    assert (records + [r])[..|records|] == records;
  }

  /** How many positions were opened. */
  function OpensTold(records: seq<Record>): nat {
    if records == [] then 0
    else OpensTold(records[..|records| - 1]) + (if records[|records| - 1].command.Open? then 1 else 0)
  }

  /** What came into the room. */
  function InTold(records: seq<Record>): nat {
    if records == [] then 0
    else
      var last := records[|records| - 1].command;
      InTold(records[..|records| - 1]) + (if last.Contribute? || last.FundCell? then last.amount else 0)
  }

  /** What left the room. */
  function OutTold(records: seq<Record>): nat {
    if records == [] then 0
    else
      var last := records[|records| - 1].command;
      OutTold(records[..|records| - 1]) + (if last.Withdraw? || last.WithdrawCell? then last.amount else 0)
  }

  /** The slot last put in force. */
  function SlotTold(records: seq<Record>): u64 {
    if records == [] then 0
    else
      match records[|records| - 1].command
      case Open(_, _, _, now) => now
      case Close(_, _, _, now) => now
      case RecordTerminalObservation(_, _, _, now) => now
      case SettleMatured(_, now) => now
      case _ => SlotTold(records[..|records| - 1])
  }

  lemma BooksUnfold(records: seq<Record>, r: Record)
    ensures OpensTold(records + [r]) == OpensTold(records) + (if r.command.Open? then 1 else 0)
    ensures InTold(records + [r])
            == InTold(records) + (if r.command.Contribute? || r.command.FundCell? then r.command.amount else 0)
    ensures OutTold(records + [r])
            == OutTold(records) + (if r.command.Withdraw? || r.command.WithdrawCell? then r.command.amount else 0)
    ensures SlotTold(records + [r])
            == if r.command.Open? || r.command.Close? || r.command.RecordTerminalObservation?
                  || r.command.SettleMatured? then r.command.nowSlot else SlotTold(records)
  {
    assert (records + [r])[..|records|] == records;
  }

  // ---- What the room holds ----

  /** A member is as its transcript registered it, and a stranger has no transcript. */
  predicate MemberTold(s: RoomState, records: seq<Record>, id: MemberId) {
    if id in s.members then
      var m := s.members[id];
      && OwnerTold(records, id) == Some(m.owner) && DelegateTold(records, id) == m.delegate
      && m.generation == 1 && m.policyRevision == PoliciesTold(records, id) && m.nextNonce == TradesTold(records, id)
    else
      && OwnerTold(records, id) == None && DelegateTold(records, id) == None
      && PoliciesTold(records, id) == 0 && TradesTold(records, id) == 0
  }

  predicate CellTold(s: RoomState, records: seq<Record>, id: CellId) {
    if id in s.cells
    then CellOwnerTold(records, id) == Some(s.cells[id].owner)
         && s.cells[id].policyRevision == CellPoliciesTold(records, id)
    else CellOwnerTold(records, id) == None && CellPoliciesTold(records, id) == 0
  }

  /** The room's own counters: positions are numbered from one, and flows are summed. */
  predicate BooksTold(s: RoomState, records: seq<Record>) {
    && s.nextPosition == 1 + OpensTold(records)
    && s.externalIn == InTold(records) && s.externalOut == OutTold(records)
  }

  ghost predicate Told(s: RoomState, records: seq<Record>) {
    && (forall id: MemberId :: MemberTold(s, records, id)) && (forall id: CellId :: CellTold(s, records, id))
    && BooksTold(s, records)
  }

  // ---- Authority ----

  /** The consent a trade carries is for this room, this registration and the member's next turn. */
  predicate Consented(room: RoomId, before: seq<Record>, c: Consent) {
    && c.room == room && c.memberGeneration == 1 && c.nonce == TradesTold(before, c.member)
  }

  /** A trade is made by the registered owner, or by the delegate named last. */
  predicate ByTrader(before: seq<Record>, actor: Actor, id: MemberId) {
    && OwnerTold(before, id).Some?
    && match actor
       case Owner(owner) => OwnerTold(before, id) == Some(owner)
       case Delegate(delegate) => DelegateTold(before, id) == Some(delegate)
  }

  predicate ByOwner(before: seq<Record>, actor: Actor, id: MemberId) {
    actor.Owner? && OwnerTold(before, id) == Some(actor.owner)
  }

  predicate ByCellOwner(before: seq<Record>, actor: Actor, id: CellId) {
    actor.Owner? && CellOwnerTold(before, id) == Some(actor.owner)
  }

  /** Whose command it had to be, as far as the transcript before it tells. */
  predicate Authorized(room: RoomId, administrator: OwnerId, before: seq<Record>, c: Command) {
    match c
    case RegisterMarket(actor, _) => actor == Owner(administrator)
    case RecordTerminalObservation(actor, _, _, _) => actor == Owner(administrator)
    case AddCell(actor, cell, _) => actor.Owner? && CellOwnerTold(before, cell) == None
    case AddMember(actor, member, _, _) => actor.Owner? && OwnerTold(before, member) == None
    case ChangeCellPolicy(actor, cell, expected, _) =>
      ByCellOwner(before, actor, cell) && expected == CellPoliciesTold(before, cell)
    case FundCell(actor, cell, _) => ByCellOwner(before, actor, cell)
    case WithdrawCell(actor, cell, _) => ByCellOwner(before, actor, cell)
    case ChangePolicy(actor, member, expected, _, _) =>
      ByOwner(before, actor, member) && expected == PoliciesTold(before, member)
    case Contribute(actor, member, _) => ByOwner(before, actor, member)
    case Withdraw(actor, member, _) => ByOwner(before, actor, member)
    case Open(actor, intent, _, _) =>
      && ByTrader(before, actor, intent.consent.member) && Consented(room, before, intent.consent)
      && intent.consent.policyRevision == PoliciesTold(before, intent.consent.member)
      && intent.cellPolicyRevision == CellPoliciesTold(before, intent.cell)
    case Close(actor, intent, _, _) =>
      ByTrader(before, actor, intent.consent.member) && Consented(room, before, intent.consent)
    case SettleMatured(_, _) => true
  }

  lemma AcceptedIsAuthorized(s: RoomState, records: seq<Record>, c: Command)
    requires Told(s, records) && Accepts(s, c)
    ensures Authorized(s.id, s.administrator, records, c)
  {
    hide GoodPolicy, GoodUnderwriting, GoodMarket, OwnerTold, CellOwnerTold, DelegateTold, PoliciesTold,
         CellPoliciesTold, TradesTold, Quotes, InWindow, Settleable, NotionalOfEntry, FeeOfEntry, WithinBudgets,
         Ascending;
    if Trades(c) {
      assert MemberTold(s, records, ConsentIn(c).member);
      if c.Open? {
        assert CellTold(s, records, c.openIntent.cell);
      }
    } else if c.AddCell? || c.ChangeCellPolicy? || c.FundCell? || c.WithdrawCell? {
      assert CellTold(s, records, c.cell);
    } else if c.AddMember? || c.ChangePolicy? || c.Contribute? || c.Withdraw? {
      assert MemberTold(s, records, c.member);
    }
  }

  lemma MovesTellMember(s: RoomState, records: seq<Record>, c: Command, outcome: Outcome, s': RoomState, id: MemberId)
    requires MemberTold(s, records, id) && Accepts(s, c) && Moves(s, c, outcome, s')
    ensures MemberTold(s', records + [Record(c, outcome)], id)
  {
    hide GoodPolicy, GoodUnderwriting, GoodMarket, OwnerTold, CellOwnerTold, DelegateTold, PoliciesTold,
         CellPoliciesTold, TradesTold, Admits, MayClose, Reports, Ascending;
    RecordTells(records, Record(c, outcome), id);
    TradedMember(s, c, outcome, s');
  }

  /** A trade moves the member that consented to it. */
  lemma TradedMember(s: RoomState, c: Command, outcome: Outcome, s': RoomState)
    requires Accepts(s, c) && Moves(s, c, outcome, s')
    ensures c.Open? ==> outcome.Opened? && outcome.receipt.intent == c.openIntent
    ensures c.Close? ==> c.closeIntent.position in s.positions
                         && s.positions[c.closeIntent.position].intent.consent.member == c.closeIntent.consent.member
  {
    hide Admits, Reports, Entered, Exited, Quotes, InWindow, Ascending;
  }

  lemma MovesTellCell(s: RoomState, records: seq<Record>, c: Command, outcome: Outcome, s': RoomState, id: CellId)
    requires CellTold(s, records, id) && Accepts(s, c) && Moves(s, c, outcome, s')
    ensures CellTold(s', records + [Record(c, outcome)], id)
  {
    hide GoodPolicy, GoodUnderwriting, GoodMarket, OwnerTold, CellOwnerTold, DelegateTold, PoliciesTold,
         CellPoliciesTold, TradesTold, Admits, MayClose, Reports, Agreed, Ascending;
    RecordTells(records, Record(c, outcome), id);
  }

  lemma MovesTellBooks(s: RoomState, records: seq<Record>, c: Command, outcome: Outcome, s': RoomState)
    requires BooksTold(s, records) && Moves(s, c, outcome, s')
    ensures BooksTold(s', records + [Record(c, outcome)])
    ensures s'.currentSlot == s.currentSlot
    ensures c.Open? ==> outcome.Opened? && outcome.receipt.position == 1 + OpensTold(records)
  {
    hide OpensTold, InTold, OutTold, SlotTold, Reports, NotionalOfEntry, FeeOfEntry, Ascending;
    BooksUnfold(records, Record(c, outcome));
  }

  lemma MovesTell(s: RoomState, records: seq<Record>, c: Command, outcome: Outcome, s': RoomState)
    requires Told(s, records) && Accepts(s, c) && Moves(s, c, outcome, s')
    ensures Told(s', records + [Record(c, outcome)])
    ensures s'.id == s.id && s'.administrator == s.administrator && s'.currentSlot == s.currentSlot
    ensures c.Open? ==> outcome.Opened? && outcome.receipt.position == 1 + OpensTold(records)
  {
    hide Accepts, Moves, MemberTold, CellTold, BooksTold;
    MovesTellBooks(s, records, c, outcome, s');
    forall id: MemberId ensures MemberTold(s', records + [Record(c, outcome)], id) {
      MovesTellMember(s, records, c, outcome, s', id);
    }
    forall id: CellId ensures CellTold(s', records + [Record(c, outcome)], id) {
      MovesTellCell(s, records, c, outcome, s', id);
    }
    IdentityMoves(s, c, outcome, s');
  }

  lemma IdentityMoves(s: RoomState, c: Command, outcome: Outcome, s': RoomState)
    requires Moves(s, c, outcome, s')
    ensures s'.id == s.id && s'.administrator == s.administrator
  {
    hide Agreed, Reports;
  }

  // ---- Every run ----

  /** A position is numbered by how many were opened before it. */
  predicate Numbered(before: seq<Record>, r: Record) {
    r.command.Open? ==> r.outcome.Opened? && r.outcome.receipt.position == 1 + OpensTold(before)
  }

  ghost predicate Lawful(s: RoomState) {
    && Told(s, s.records) && s.currentSlot == SlotTold(s.records)
    && (forall k :: 0 <= k < |s.records| ==>
          && Authorized(s.id, s.administrator, s.records[..k], s.records[k].command)
          && Numbered(s.records[..k], s.records[k]))
  }

  lemma LawfulStep(s: RoomState, c: Command)
    requires Inv(s) && Lawful(s) && Execute(s, c).Success?
    ensures Lawful(Execute(s, c).value.0)
  {
    hide Inv, Execute, Accepts, Moves, Authorized, MemberTold, CellTold, BooksTold;
    ExecuteDecided(s, c);
    var (s', outcome) := Execute(s, c).value;
    var s1 := s.(currentSlot := Moment(s, c));
    SlotTells(s, s1);
    AcceptedIsAuthorized(s1, s.records, c);
    MovesTell(s1, s.records, c, outcome, s'.(records := s.records));
    SlotTells(s'.(records := s.records), s');
    BooksUnfold(s.records, Record(c, outcome));
    forall k | 0 <= k < |s'.records|
      ensures Authorized(s'.id, s'.administrator, s'.records[..k], s'.records[k].command)
      ensures Numbered(s'.records[..k], s'.records[k])
    {
      if k < |s.records| {
        assert s'.records[..k] == s.records[..k];
      } else {
        assert s'.records[..k] == s.records;
      }
    }
  }

  lemma SlotTells(s: RoomState, s1: RoomState)
    requires s1.members == s.members && s1.cells == s.cells && s1.nextPosition == s.nextPosition
    requires s1.externalIn == s.externalIn && s1.externalOut == s.externalOut
    ensures forall records :: Told(s, records) ==> Told(s1, records)
  {
    hide OwnerTold, CellOwnerTold, DelegateTold, PoliciesTold, CellPoliciesTold, TradesTold;
    forall records | Told(s, records) ensures Told(s1, records) {
      forall id: MemberId ensures MemberTold(s1, records, id) {
        assert MemberTold(s, records, id);
      }
      forall id: CellId ensures CellTold(s1, records, id) {
        assert CellTold(s, records, id);
      }
    }
  }

  lemma {:induction false} LawfulAfter(id: RoomId, administrator: OwnerId, commands: seq<Command>)
    ensures Lawful(After(NewRoom(id, administrator), commands))
  {
    hide Inv, Execute, Authorized;
    if commands != [] {
      var (init, c) := (commands[..|commands| - 1], commands[|commands| - 1]);
      LawfulAfter(id, administrator, init);
      AfterInv(id, administrator, init);
      if Execute(After(NewRoom(id, administrator), init), c).Success? {
        LawfulStep(After(NewRoom(id, administrator), init), c);
      }
    }
  }

  /**
   * In every reachable room every record was its rightful author's: a trade was made by the member's registered owner
   * or the delegate its last policy named, on a consent for this room, this registration and the number of trades made
   * for the member before it; markets and terminal prices were the administrator's; the rest were owners' own.
   */
  lemma EveryRecordAuthorized(s: RoomState, k: nat)
    requires Reachable(s) && k < |s.records|
    ensures Authorized(s.id, s.administrator, s.records[..k], s.records[k].command)
  {
    hide Authorized, After;
    var commands :| s == After(NewRoom(s.id, s.administrator), commands);
    LawfulAfter(s.id, s.administrator, commands);
  }

  /** Every member of a reachable room is as its transcript tells: owner, delegate, revision and next nonce. */
  lemma MembersAsTold(s: RoomState, id: MemberId)
    requires Reachable(s) && id in s.members
    ensures var m := s.members[id];
            && OwnerTold(s.records, id) == Some(m.owner) && DelegateTold(s.records, id) == m.delegate
            && m.policyRevision == PoliciesTold(s.records, id) && m.nextNonce == TradesTold(s.records, id)
  {
    hide After, OwnerTold, DelegateTold, PoliciesTold, TradesTold, Authorized;
    var commands :| s == After(NewRoom(s.id, s.administrator), commands);
    LawfulAfter(s.id, s.administrator, commands);
    assert MemberTold(s, s.records, id);
  }

  /** Its flows, its clock and its next position are what the transcript tells, and positions are numbered in order. */
  lemma BooksAsTold(s: RoomState)
    requires Reachable(s)
    ensures s.externalIn == InTold(s.records) && s.externalOut == OutTold(s.records)
    ensures s.currentSlot == SlotTold(s.records) && s.nextPosition == 1 + OpensTold(s.records)
    ensures forall k :: 0 <= k < |s.records| ==> Numbered(s.records[..k], s.records[k])
  {
    hide After, InTold, OutTold, SlotTold, OpensTold, Authorized, MemberTold, CellTold, Numbered;
    var commands :| s == After(NewRoom(s.id, s.administrator), commands);
    LawfulAfter(s.id, s.administrator, commands);
  }
}

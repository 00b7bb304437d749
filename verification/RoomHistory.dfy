/** What a room's own transcript says about its members' money and its terminal prices. */
module RoomHistory {
  import opened Numbers
  import opened RoomModel
  import opened RoomKernel
  import opened RoomInvariant
  import opened RoomRuns

  /** The terms a position was opened under, read from the transcript. */
  function TermsOf(records: seq<Record>, position: PositionId): Option<OpenReceipt> {
    if records == [] then None
    else
      var last := records[|records| - 1].outcome;
      if last.Opened? && last.receipt.position == position then Some(last.receipt)
      else TermsOf(records[..|records| - 1], position)
  }

  /** A member's account recomputed from the transcript alone. */
  datatype Account = Account(contributed: int, withdrawn: int, lossesAndFees: int, atRisk: int, gains: int)

  function CollateralIn(terms: Option<OpenReceipt>): int {
    if terms.Some? then terms.value.intent.collateral else 0
  }

  function Posted(a: Account, outcome: Outcome, before: seq<Record>, id: MemberId): Account {
    match outcome
    case Contributed(member, amount) => if member == id then a.(contributed := a.contributed + amount) else a
    case Withdrawn(member, _, amount) => if member == id then a.(withdrawn := a.withdrawn + amount) else a
    case Opened(r) =>
      if r.intent.consent.member == id
      then a.(lossesAndFees := a.lossesAndFees + r.fee, atRisk := a.atRisk + r.intent.collateral)
      else a
    case Closed(c) =>
      if c.member == id then
        var collateral := CollateralIn(TermsOf(before, c.position));
        a.(lossesAndFees := a.lossesAndFees + c.realizedLoss, atRisk := a.atRisk - collateral,
           gains := a.gains + Max(0, c.payout - collateral))
      else a
    case _ => a
  }

  function AccountOf(records: seq<Record>, id: MemberId): Account {
    if records == [] then Account(0, 0, 0, 0, 0)
    else
      var before := records[..|records| - 1];
      Posted(AccountOf(before, id), records[|records| - 1].outcome, before, id)
  }

  /** The loss limit a record installs for a member, if it installs one. */
  function InstallsLimit(r: Record, id: MemberId): Option<u128> {
    if (r.command.AddMember? || r.command.ChangePolicy?) && r.command.member == id
    then Some(r.command.policy.lossLimit) else None
  }

  function LastLimit(records: seq<Record>, id: MemberId): int {
    if records == [] then 0
    else
      var installed := InstallsLimit(records[|records| - 1], id);
      if installed.Some? then installed.value else LastLimit(records[..|records| - 1], id)
  }

  /** The highest loss limit the member's owner ever installed. */
  function PeakLimit(records: seq<Record>, id: MemberId): int {
    if records == [] then 0
    else
      var installed := InstallsLimit(records[|records| - 1], id);
      var before := PeakLimit(records[..|records| - 1], id);
      if installed.Some? then Max(before, installed.value) else before
  }

  predicate NeverLowered(records: seq<Record>, id: MemberId) {
    records == []
    || (NeverLowered(records[..|records| - 1], id)
        && var installed := InstallsLimit(records[|records| - 1], id);
           installed.Some? ==> installed.value >= LastLimit(records[..|records| - 1], id))
  }

  // ---- The ledger law ----

  predicate Balanced(s: RoomState, id: MemberId) {
    var a := AccountOf(s.records, id);
    if id in s.members then
      var m := s.members[id];
      && a == Account(m.contributed, m.withdrawn, m.lossAndFeeUsed, m.collateralAtRisk, a.gains)
      && 0 <= a.gains
      && m.free + m.withdrawn + m.collateralAtRisk + m.lossAndFeeUsed == m.contributed + a.gains
      && m.lossAndFeeUsed + m.collateralAtRisk <= PeakLimit(s.records, id)
      && m.policy.lossLimit == LastLimit(s.records, id) <= PeakLimit(s.records, id)
    else
      a == Account(0, 0, 0, 0, 0) && LastLimit(s.records, id) == PeakLimit(s.records, id) == 0
  }

  /** Open positions are exactly as the transcript opened them. */
  predicate TermsKept(s: RoomState) {
    forall k :: k in s.positions ==> TermsOf(s.records, k) == Some(s.positions[k])
  }

  /** A settlement at or after maturity used the recorded terminal price. */
  predicate SettledAtTerminal(s: RoomState, k: nat)
    requires k < |s.records|
  {
    s.records[k].outcome.Closed? ==>
      var c := s.records[k].outcome.closed;
      var terms := TermsOf(s.records[..k], c.position);
      && terms.Some?
      && (c.executedSlot >= terms.value.intent.maturitySlot ==>
            KeyOf(terms.value) in s.terminal && s.terminal[KeyOf(terms.value)] == c.observation)
  }

  ghost predicate History(s: RoomState) {
    && TermsKept(s)
    && (forall id: MemberId :: Balanced(s, id))
    && (forall k :: 0 <= k < |s.records| ==> SettledAtTerminal(s, k))
  }

  // ---- One step ----

  lemma RecordUnfolds(records: seq<Record>, r: Record, id: u64)
    ensures AccountOf(records + [r], id) == Posted(AccountOf(records, id), r.outcome, records, id)
    ensures TermsOf(records + [r], id) == if r.outcome.Opened? && r.outcome.receipt.position == id
        then Some(r.outcome.receipt)
                                          else TermsOf(records, id)
    ensures var installed := InstallsLimit(r, id);
            && LastLimit(records + [r], id) == (if installed.Some? then installed.value else LastLimit(records, id))
            && PeakLimit(records + [r], id)
               == (if installed.Some? then Max(PeakLimit(records, id), installed.value) else PeakLimit(records, id))
  {
    assert (records + [r])[..|records|] == records;
  }

  /** What a settlement reports. */
  lemma SettleReceipt(s: RoomState, p: OpenReceipt, observation: Observation, now: u64, consumeNonce: bool)
    requires SettlePosition(s, p, observation, now, consumeNonce).Success?
    ensures var (s', outcome) := SettlePosition(s, p, observation, now, consumeNonce).value;
            && PayoutAt(p, observation.price).Success?
            && outcome.Closed?
            && outcome.closed.position == p.position && outcome.closed.member == p.intent.consent.member
            && outcome.closed.observation == observation && outcome.closed.executedSlot == now
            && outcome.closed.payout == PayoutAt(p, observation.price).value
            && outcome.closed.realizedLoss == Max(0, p.intent.collateral - outcome.closed.payout)
            && s'.terminal == s.terminal && s'.records == s.records
  {
    hide PayoutAt;
  }

  lemma OpenReports(s: RoomState, r: OpenReceipt)
    requires OpenPosition(s, r).Success?
    ensures var (s', outcome) := OpenPosition(s, r).value;
            outcome == Opened(r) && s'.records == s.records && s'.terminal == s.terminal
  {
  }

  /** The room once a command has been applied and recorded. */
  function Recorded(applied: (RoomState, Outcome), c: Command): RoomState {
    applied.0.(records := applied.0.records + [Record(c, applied.1)])
  }

  /** A command in force: its slot is the room's. */
  ghost predicate InForce(s: RoomState, c: Command) {
    Inv(s) && Apply(s, c).Success? && (SlotOf(c).Some? ==> SlotOf(c).value == s.currentSlot)
  }

  predicate Settles(c: Command) {
    c.Close? || c.SettleMatured?
  }

  function SettledPosition(c: Command): PositionId
    requires Settles(c)
  {
    if c.Close? then c.closeIntent.position else c.position
  }

  function SettledPrice(s: RoomState, c: Command): Observation
    requires Settles(c) && SettledPosition(c) in s.positions
    requires c.SettleMatured? ==> KeyOf(s.positions[c.position]) in s.terminal
  {
    if c.Close? then c.observation else s.terminal[KeyOf(s.positions[c.position])]
  }

  /** A successful entry is an admitted receipt taking its place. */
  lemma OpenMoves(s: RoomState, c: Command) returns (r: OpenReceipt)
    requires InForce(s, c) && c.Open?
    ensures Admissible(s, r) && OpenPosition(s, r).Success? && Apply(s, c) == OpenPosition(s, r)
    ensures KeyOf(r) !in s.terminal
  {
    hide Reconciles, AdmitOpen, OpenPosition, Payable;
    AdmitOpenIsAdmissible(s, c.actor, c.openIntent, c.observation, c.nowSlot);
    r := AdmitOpen(s, c.actor, c.openIntent, c.observation, c.nowSlot).value;
  }

  /** A successful exit settles a stored position, at its terminal price once that price is due. */
  lemma CloseMoves(s: RoomState, c: Command)
    requires InForce(s, c) && Settles(c)
    ensures SettledPosition(c) in s.positions
    ensures var p := s.positions[SettledPosition(c)];
            && (c.SettleMatured? || s.currentSlot >= p.intent.maturitySlot ==>
                  KeyOf(p) in s.terminal && s.terminal[KeyOf(p)] == SettledPrice(s, c))
            && SettlePosition(s, p, SettledPrice(s, c), s.currentSlot, c.Close?).Success?
            && Apply(s, c) == SettlePosition(s, p, SettledPrice(s, c), s.currentSlot, c.Close?)
  {
    hide Inv, AdmitClose, SettlePosition;
    if c.Close? {
      AdmittedIsStored(s, c.actor, c.closeIntent, c.observation, c.nowSlot);
    }
  }

  /** Every other command leaves positions alone, and a recorded terminal price stays. */
  lemma OtherMoves(s: RoomState, c: Command)
    requires Apply(s, c).Success? && !c.Open? && !Settles(c)
    ensures var (s', outcome) := Apply(s, c).value;
            && !outcome.Opened? && !outcome.Closed?
            && s'.positions == s.positions && s'.records == s.records
            && (forall key :: key in s.terminal ==> key in s'.terminal && s'.terminal[key] == s.terminal[key])
  {
    hide ValidatePolicy, ValidateUnderwriting, ValidateMarket;
  }

  /** No command rewrites history or a recorded terminal price. */
  lemma PastIsKept(s: RoomState, c: Command)
    requires InForce(s, c)
    ensures var (s', outcome) := Apply(s, c).value;
            && s'.records == s.records
            && (outcome.Closed? <==> Settles(c)) && (outcome.Opened? <==> c.Open?)
            && (forall key :: key in s.terminal ==> key in s'.terminal && s'.terminal[key] == s.terminal[key])
  {
    hide Inv, Apply, OpenPosition, SettlePosition, Admissible;
    if c.Open? {
      var r := OpenMoves(s, c);
      OpenReports(s, r);
    } else if Settles(c) {
      CloseMoves(s, c);
      SettleReceipt(s, s.positions[SettledPosition(c)], SettledPrice(s, c), s.currentSlot, c.Close?);
    } else {
      OtherMoves(s, c);
    }
  }

  lemma BalancedStep(s: RoomState, c: Command, id: MemberId)
    requires InForce(s, c) && TermsKept(s) && Balanced(s, id)
    ensures Balanced(Recorded(Apply(s, c).value, c), id)
  {
    hide Inv, Apply, OpenPosition, SettlePosition, Admissible, TermsKept, Balanced, Recorded;
    if c.Open? {
      var r := OpenMoves(s, c);
      BalancedOpen(s, c, r, id);
    } else if Settles(c) {
      CloseMoves(s, c);
      BalancedClose(s, c, SettledPosition(c), SettledPrice(s, c), id);
    } else {
      BalancedMoney(s, c, id);
    }
  }

  lemma BalancedOpen(s: RoomState, c: Command, r: OpenReceipt, id: MemberId)
    requires Balanced(s, id) && c.Open? && Admissible(s, r) && OpenPosition(s, r).Success?
    ensures Balanced(Recorded(OpenPosition(s, r).value, c), id)
  {
    hide OpenPosition, Payable, AccountOf, LastLimit, PeakLimit, TermsOf;
    RecordUnfolds(s.records, Record(c, Opened(r)), id);
    OpenReports(s, r);
    OpenShape(s, r);
  }

  lemma BalancedClose(s: RoomState, c: Command, k: PositionId, observation: Observation, id: MemberId)
    requires Inv(s) && TermsKept(s) && Balanced(s, id) && k in s.positions && Settles(c)
    requires SettlePosition(s, s.positions[k], observation, s.currentSlot, c.Close?).Success?
    ensures Balanced(Recorded(SettlePosition(s, s.positions[k], observation, s.currentSlot, c.Close?).value, c), id)
  {
    hide Reconciles, Payable, PayoutAt, SettlePosition, AccountOf, LastLimit, PeakLimit, TermsOf;
    var p := s.positions[k];
    StoredPositionSound(s, k);
    RecordUnfolds(s.records, Record(c, SettlePosition(s, p, observation, s.currentSlot, c.Close?).value.1), id);
    SettleShape(s, p, observation, s.currentSlot, c.Close?);
    SettleReceipt(s, p, observation, s.currentSlot, c.Close?);
  }

  lemma BalancedMoney(s: RoomState, c: Command, id: MemberId)
    requires Balanced(s, id) && Apply(s, c).Success? && !c.Open? && !Settles(c)
    ensures Balanced(Recorded(Apply(s, c).value, c), id)
  {
    hide Apply, Balanced;
    if c.AddMember? || c.ChangePolicy? || c.Contribute? || c.Withdraw? {
      BalancedMember(s, c, id);
    } else {
      BalancedElsewhere(s, c, id);
    }
  }

  lemma BalancedMember(s: RoomState, c: Command, id: MemberId)
    requires Balanced(s, id) && Apply(s, c).Success?
        && (c.AddMember? || c.ChangePolicy? || c.Contribute? || c.Withdraw?)
    ensures Balanced(Recorded(Apply(s, c).value, c), id)
  {
    hide AccountOf, LastLimit, PeakLimit, TermsOf, ValidatePolicy;
    RecordUnfolds(s.records, Record(c, Apply(s, c).value.1), id);
  }

  lemma BalancedElsewhere(s: RoomState, c: Command, id: MemberId)
    requires Balanced(s, id) && Apply(s, c).Success? && !c.Open? && !Settles(c)
    requires !c.AddMember? && !c.ChangePolicy? && !c.Contribute? && !c.Withdraw?
    ensures Balanced(Recorded(Apply(s, c).value, c), id)
  {
    hide AccountOf, LastLimit, PeakLimit, TermsOf, ValidateUnderwriting, ValidateMarket;
    RecordUnfolds(s.records, Record(c, Apply(s, c).value.1), id);
  }

  lemma TermsStep(s: RoomState, c: Command, k: PositionId)
    requires InForce(s, c) && TermsKept(s) && k in Apply(s, c).value.0.positions
    ensures TermsOf(s.records + [Record(c, Apply(s, c).value.1)], k) == Some(Apply(s, c).value.0.positions[k])
  {
    hide Reconciles, Structured, Payable, Apply, SettlePosition, OpenPosition, TermsOf;
    RecordUnfolds(s.records, Record(c, Apply(s, c).value.1), k);
    if c.Open? {
      var r := OpenMoves(s, c);
      OpenReports(s, r);
      OpenShape(s, r);
      NextPositionIsFresh(s);
    } else if Settles(c) {
      CloseMoves(s, c);
      SettleReceipt(s, s.positions[SettledPosition(c)], SettledPrice(s, c), s.currentSlot, c.Close?);
      SettleShape(s, s.positions[SettledPosition(c)], SettledPrice(s, c), s.currentSlot, c.Close?);
    } else {
      OtherMoves(s, c);
    }
  }

  lemma TerminalStep(s: RoomState, c: Command, k: nat)
    requires InForce(s, c) && TermsKept(s) && k <= |s.records| && (k < |s.records| ==> SettledAtTerminal(s, k))
    ensures Apply(s, c).value.0.records == s.records && SettledAtTerminal(Recorded(Apply(s, c).value, c), k)
  {
    hide Inv, Apply, SettlePosition, TermsOf;
    PastIsKept(s, c);
    var records := s.records + [Record(c, Apply(s, c).value.1)];
    assert records[..k] == s.records[..k];
    if k == |s.records| && Settles(c) {
      assert records[..k] == s.records;
      CloseMoves(s, c);
      SettledUnderTerms(s, c);
    }
  }

  lemma SettledUnderTerms(s: RoomState, c: Command)
    requires InForce(s, c) && TermsKept(s) && Settles(c)
    ensures var closed := Apply(s, c).value.1;
            && closed.Closed? && closed.closed.executedSlot == s.currentSlot
            && SettledPosition(c) in s.positions
            && TermsOf(s.records, closed.closed.position) == Some(s.positions[SettledPosition(c)])
            && (c.SettleMatured? ==> KeyOf(s.positions[c.position]) in s.terminal)
            && closed.closed.observation == SettledPrice(s, c)
  {
    hide Reconciles, Structured, Payable, Apply, SettlePosition, TermsOf;
    CloseMoves(s, c);
    var k := SettledPosition(c);
    StoredPositionSound(s, k);
    SettleReceipt(s, s.positions[k], SettledPrice(s, c), s.currentSlot, c.Close?);
  }

  lemma HistoryStep(s: RoomState, c: Command)
    requires Inv(s) && History(s) && Execute(s, c).Success?
    ensures History(Execute(s, c).value.0)
  {
    hide Inv, Reconciles, Apply, Balanced, SettledAtTerminal, TermsOf;
    var s1 := WithSlot(s, c);
    HistorySlot(s, s1);
    if SlotOf(c).Some? {
      SlotKeeps(s, SlotOf(c).value);
    }
    PastIsKept(s1, c);
    var s' := Execute(s, c).value.0;
    assert s' == Recorded(Apply(s1, c).value, c);
    forall k | k in s'.positions ensures TermsOf(s'.records, k) == Some(s'.positions[k]) {
      TermsStep(s1, c, k);
    }
    forall id: MemberId ensures Balanced(s', id) {
      BalancedStep(s1, c, id);
    }
    forall k | 0 <= k < |s'.records| ensures SettledAtTerminal(s', k) {
      TerminalStep(s1, c, k);
    }
  }

  lemma HistorySlot(s: RoomState, s1: RoomState)
    requires History(s) && s1 == s.(currentSlot := s1.currentSlot)
    ensures History(s1)
  {
    hide AccountOf, TermsOf, LastLimit, PeakLimit;
    forall id: MemberId ensures Balanced(s1, id) {
      assert Balanced(s, id);
    }
    forall k | 0 <= k < |s1.records| ensures SettledAtTerminal(s1, k) {
      assert SettledAtTerminal(s, k);
    }
  }

  lemma {:induction false} HistoryAfter(id: RoomId, administrator: OwnerId, commands: seq<Command>)
    ensures History(After(NewRoom(id, administrator), commands))
  {
    hide Execute, History, Inv;
    if commands == [] {
      EmptyHistory(id, administrator);
    } else {
      var before := After(NewRoom(id, administrator), commands[..|commands| - 1]);
      HistoryAfter(id, administrator, commands[..|commands| - 1]);
      AfterInv(id, administrator, commands[..|commands| - 1]);
      if Execute(before, commands[|commands| - 1]).Success? {
        HistoryStep(before, commands[|commands| - 1]);
      }
    }
  }

  lemma EmptyHistory(id: RoomId, administrator: OwnerId)
    ensures History(NewRoom(id, administrator))
  {
  }

  lemma ReachableHistory(s: RoomState)
    requires Reachable(s)
    ensures History(s)
  {
    hide History, After;
    var commands :| s == After(NewRoom(s.id, s.administrator), commands);
    HistoryAfter(s.id, s.administrator, commands);
  }

  // ---- The laws over every run ----

  /**
   * Each member's money is accounted for: what it holds, withdrew, has at risk and lost is what it
   * contributed plus what the transcript shows it won; its lifetime losses never pass its contributions
   * nor the highest limit its owner set.
   */
  lemma MemberLedger(s: RoomState, id: MemberId)
    requires Reachable(s) && id in s.members
    ensures var (m, a) := (s.members[id], AccountOf(s.records, id));
            && m.free + m.withdrawn + m.collateralAtRisk + m.lossAndFeeUsed == m.contributed + a.gains
            && 0 <= a.gains
            && m.contributed == a.contributed && m.withdrawn == a.withdrawn
            && m.lossAndFeeUsed == a.lossesAndFees && m.collateralAtRisk == a.atRisk
            && m.lossAndFeeUsed + m.collateralAtRisk <= m.contributed <= m.policy.contributionLimit
            && m.lossAndFeeUsed + m.collateralAtRisk <= PeakLimit(s.records, id)
  {
    hide Reachable, AccountOf, PeakLimit, LastLimit;
    ReachableHistory(s);
    ReachableInv(s);
    assert Balanced(s, id);
    assert MemberReconciles(s.members[id], id, s.positions);
  }

  /** While the loss limit is never lowered, losses and risk stay within the limit in force. */
  lemma LossWithinLimit(s: RoomState, id: MemberId)
    requires Reachable(s) && id in s.members && NeverLowered(s.records, id)
    ensures s.members[id].lossAndFeeUsed + s.members[id].collateralAtRisk <= s.members[id].policy.lossLimit
  {
    hide Reachable;
    ReachableHistory(s);
    assert Balanced(s, id);
    PeakIsLast(s.records, id);
  }

  lemma {:induction false} PeakIsLast(records: seq<Record>, id: MemberId)
    requires NeverLowered(records, id)
    ensures PeakLimit(records, id) == LastLimit(records, id)
  {
    if records != [] {
      PeakIsLast(records[..|records| - 1], id);
    }
  }

  /** No position opens at or past its maturity, nor against a price already recorded for it. */
  lemma OpensBeforeMaturity(s: RoomState, c: Command)
    requires Reachable(s) && c.Open? && Execute(s, c).Success?
    ensures var (s', outcome) := Execute(s, c).value;
            outcome.Opened? && s'.currentSlot < outcome.receipt.intent.maturitySlot
                && KeyOf(outcome.receipt) !in s'.terminal
  {
    hide Reachable, Inv, Reconciles, Payable, Apply, OpenPosition;
    ReachableInv(s);
    SlotKeeps(s, c.nowSlot);
    var s1 := WithSlot(s, c);
    var r := OpenMoves(s1, c);
    OpenReports(s1, r);
    OpenShape(s1, r);
  }

  /** A recorded terminal price never changes, whatever is attempted afterwards. */
  lemma {:induction false} TerminalIsPermanent(s: RoomState, commands: seq<Command>, key: TerminalKey)
    requires Inv(s) && key in s.terminal
    ensures Inv(After(s, commands))
    ensures var s' := After(s, commands); key in s'.terminal && s'.terminal[key] == s.terminal[key]
  {
    hide Inv, Reconciles, Apply;
    if commands != [] {
      var (init, c) := (commands[..|commands| - 1], commands[|commands| - 1]);
      TerminalIsPermanent(s, init, key);
      var before := After(s, init);
      if Execute(before, c).Success? {
        ExecuteKeeps(before, c);
        if SlotOf(c).Some? {
          SlotKeeps(before, SlotOf(c).value);
        }
        PastIsKept(WithSlot(before, c), c);
      }
    }
  }

  /** All settlements of one market generation and maturity, at or after it, use one price. */
  lemma MaturedPricesAgree(s: RoomState, j: nat, k: nat)
    requires Reachable(s) && j < |s.records| && k < |s.records|
    requires s.records[j].outcome.Closed? && s.records[k].outcome.Closed?
    ensures var (c, d) := (s.records[j].outcome.closed, s.records[k].outcome.closed);
            var (t, u) := (TermsOf(s.records[..j], c.position), TermsOf(s.records[..k], d.position));
            && t.Some? && u.Some?
            && (KeyOf(t.value) == KeyOf(u.value)
                && c.executedSlot >= t.value.intent.maturitySlot && d.executedSlot >= u.value.intent.maturitySlot
                ==> c.observation == d.observation)
  {
    hide Reachable, TermsOf;
    ReachableHistory(s);
    assert SettledAtTerminal(s, j);
    assert SettledAtTerminal(s, k);
  }
}

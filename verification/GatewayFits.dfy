/** No record is ever too large: an authenticated request the kernel accepts is always recorded. */
module GatewayFits {
  import opened Numbers
  import opened RoomModel
  import RoomKernel
  import RoomInvariant
  import opened Codec
  import opened Wire
  import opened WireSizes
  import opened Gateway
  import opened GatewayRuns

  /** Every policy a room holds is within the gateway's caps. */
  predicate SmallRoom(room: RoomState) {
    && (forall m :: m in room.members ==> SmallPolicy(room.members[m].policy))
    && (forall c :: c in room.cells ==> SmallUnderwriting(room.cells[c].policy))
  }

  /** A command that comes from an action within the caps, or from none. */
  predicate SmallCommand(c: Command) {
    ActionFrom(c).Some? ==> SmallAction(ActionFrom(c).value)
  }

  // ---- The kernel ----

  lemma AdmittedReceipt(s: RoomState, actor: Actor, intent: OpenIntent, observation: Observation, now: u64)
    requires RoomKernel.AdmitOpen(s, actor, intent, observation, now).Success?
    ensures var r := RoomKernel.AdmitOpen(s, actor, intent, observation, now).value;
            && r.intent == intent
            && intent.consent.member in s.members && intent.cell in s.cells
            && r.policy == s.members[intent.consent.member].policy && r.cellPolicy == s.cells[intent.cell].policy
  {
    hide RoomKernel.EntryTerms, RoomKernel.CheckBudgets, RoomKernel.CheckBacking, PayoutAt, AuthorizeTrade;
  }

  /** Commands that set a policy set one within the caps. */
  lemma PolicyStaysSmall(s: RoomState, c: Command)
    requires SmallRoom(s) && SmallCommand(c) && RoomKernel.Execute(s, c).Success?
    requires c.AddCell? || c.ChangeCellPolicy? || c.AddMember? || c.ChangePolicy?
    ensures var (s', outcome) := RoomKernel.Execute(s, c).value; SmallRoom(s') && SmallOutcome(outcome)
  {
    hide RoomKernel.Reconciles, ValidatePolicy, ValidateUnderwriting, SmallPolicy, SmallUnderwriting;
  }

  /** Commands that move money leave every policy alone. */
  lemma MoneyStaysSmall(s: RoomState, c: Command)
    requires SmallRoom(s) && RoomKernel.Execute(s, c).Success?
    requires c.RegisterMarket? || c.Contribute? || c.FundCell? || c.Withdraw? || c.WithdrawCell?
             || c.RecordTerminalObservation?
    ensures var (s', outcome) := RoomKernel.Execute(s, c).value; SmallRoom(s') && SmallOutcome(outcome)
  {
    hide RoomKernel.Reconciles, ValidateMarket, SmallPolicy, SmallUnderwriting;
  }

  /** Trades leave every policy alone, and an opening's receipt carries the two it was admitted under. */
  lemma TradeStaysSmall(s: RoomState, c: Command)
    requires SmallRoom(s) && RoomKernel.Execute(s, c).Success?
    requires c.Open? || c.Close? || c.SettleMatured?
    ensures var (s', outcome) := RoomKernel.Execute(s, c).value; SmallRoom(s') && SmallOutcome(outcome)
  {
    hide RoomKernel.Reconciles, RoomKernel.AdmitOpen, RoomKernel.AdmitClose, RoomKernel.OpenPosition,
         RoomKernel.SettlePosition, SmallPolicy, SmallUnderwriting;
    var s1 := RoomKernel.WithSlot(s, c);
    match c
    case Open(actor, intent, observation, now) =>
      AdmittedReceipt(s1, actor, intent, observation, now);
      RoomInvariant.OpenShape(s1, RoomKernel.AdmitOpen(s1, actor, intent, observation, now).value);
      OpensTheReceipt(s1, RoomKernel.AdmitOpen(s1, actor, intent, observation, now).value);
    case Close(actor, intent, observation, now) =>
      SettlesSmall(s1, RoomKernel.AdmitClose(s1, actor, intent, observation, now).value, observation, now, true);
    case SettleMatured(position, now) =>
      SettlesSmall(s1, s1.positions[position], s1.terminal[KeyOf(s1.positions[position])], now, false);
  }

  /** A room within the caps stays so under every command that is, and its receipts carry policies that are. */
  lemma ExecuteStaysSmall(s: RoomState, c: Command)
    requires SmallRoom(s) && SmallCommand(c) && RoomKernel.Execute(s, c).Success?
    ensures var (s', outcome) := RoomKernel.Execute(s, c).value; SmallRoom(s') && SmallOutcome(outcome)
  {
    hide RoomKernel.Execute, SmallRoom, SmallOutcome, SmallCommand;
    if c.AddCell? || c.ChangeCellPolicy? || c.AddMember? || c.ChangePolicy? {
      PolicyStaysSmall(s, c);
    } else if c.Open? || c.Close? || c.SettleMatured? {
      TradeStaysSmall(s, c);
    } else {
      MoneyStaysSmall(s, c);
    }
  }

  lemma OpensTheReceipt(s: RoomState, r: OpenReceipt)
    requires RoomKernel.OpenPosition(s, r).Success?
    ensures RoomKernel.OpenPosition(s, r).value.1 == Opened(r)
  {
  }

  lemma SettlesSmall(s: RoomState, r: OpenReceipt, observation: Observation, now: u64, consumeNonce: bool)
    requires SmallRoom(s) && RoomKernel.SettlePosition(s, r, observation, now, consumeNonce).Success?
    ensures var (s', outcome) := RoomKernel.SettlePosition(s, r, observation, now, consumeNonce).value;
            SmallRoom(s') && outcome.Closed?
  {
    hide PayoutAt, SmallPolicy, SmallUnderwriting;
    RoomInvariant.SettleShape(s, r, observation, now, consumeNonce);
  }

  // ---- The gateway ----

  lemma AdmittedIsSmall(p: Protocol, s: AuthState, bytes: seq<u8>, context: ExecutionContext)
    requires Admit(p, s, bytes, context).Success?
    ensures var a := Admit(p, s, bytes, context).value;
            && SmallAction(a.envelope.intent.action)
            && (a.command.Some? ==> SmallCommand(a.command.value))
  {
    hide Authenticate, CommandFor, CheckRevision, CheckTime;
    CommandSaysWhatWasSigned(Admit(p, s, bytes, context).value.envelope.intent, context);
  }

  lemma StepStaysSmall(p: Protocol, s: AuthState, request: Request)
    requires SmallRoom(s.room) && Step(p, s, request).Success?
    ensures SmallRoom(Step(p, s, request).value.0.room)
  {
    hide RoomKernel.Execute, Execute, SettlePosition, Admit, SmallRoom, SmallCommand;
    match request
    case Submit(bytes, context) =>
      SubmitMoves(p, s, bytes, context);
      AdmittedIsSmall(p, s, bytes, context);
      var command := Admit(p, s, bytes, context).value.command;
      if command.Some? {
        ExecuteStaysSmall(s.room, command.value);
      }
    case Settle(position, now) =>
      SettleMoves(p, s, position, now);
      SettlingIsSmall(position, now);
      ExecuteStaysSmall(s.room, SettleMatured(position, now));
  }

  lemma SettlingIsSmall(position: PositionId, now: u64)
    ensures SmallCommand(SettleMatured(position, now))
  {
  }

  lemma {:induction false} AfterStaysSmall(p: Protocol, s: AuthState, requests: seq<Request>)
    requires SmallRoom(s.room)
    ensures SmallRoom(After(p, s, requests).room)
  {
    hide SmallRoom, Step;
    if requests != [] {
      var init := requests[..|requests| - 1];
      AfterStaysSmall(p, s, init);
      if Step(p, After(p, s, init), requests[|requests| - 1]).Success? {
        StepStaysSmall(p, After(p, s, init), requests[|requests| - 1]);
      }
    }
  }

  /** In every reachable gateway every policy is within the caps. */
  lemma ReachableIsSmall(p: Protocol, s: AuthState)
    requires Reachable(p, s)
    ensures SmallRoom(s.room)
  {
    hide After, SmallPolicy, SmallUnderwriting;
    var requests :| s == After(p, New(p, s.genesis).value, requests);
    AfterStaysSmall(p, New(p, s.genesis).value, requests);
  }

  /** Version 1 of the published wire format. */
  ghost predicate Published(p: Protocol) {
    p.format == Version1()
  }

  /** The room a request leads to, or its error. */
  function RoomOf(r: Result<(AuthState, AuthenticatedRecord), AuthError>): Result<RoomState, AuthError> {
    if r.Success? then Success(r.value.0.room) else Failure(r.error)
  }

  lemma AppendFits(p: Protocol, s: AuthState, evidence: Evidence, outcome: AuthOutcome)
    requires Published(p) && |s.records| < U64_LIMIT
    requires evidence.Signed? && SmallAction(evidence.envelope.intent.action)
    requires outcome.Kernel? ==> SmallOutcome(outcome.outcome)
    ensures RoomOf(Append(p, s, evidence, outcome)) == Success(s.room)
  {
    hide IntentCodec, EnvelopeCodec, GenesisCodec, BodyCodec, RecordCodec, Encode, SmallAction, SmallOutcome;
    SignedRecordFits(RecordFor(p, s, evidence, outcome));
  }

  /** The room an envelope leads to, by admission and the kernel alone. */
  ghost function Accepted(p: Protocol, s: AuthState, bytes: seq<u8>, context: ExecutionContext)
    : Result<RoomState, AuthError>
  {
    var admitted :- Admit(p, s, bytes, context);
    var ran :- Run(s.room, admitted.envelope.intent.actor, admitted);
    Success(ran.0)
  }

  /**
   * An envelope is accepted exactly when it is admitted and the kernel runs its command: what is then recorded never
   * outgrows the frame, so the only errors are admission's and the kernel's.
   */
  lemma RecordsNeverRefuse(p: Protocol, s: AuthState, bytes: seq<u8>, context: ExecutionContext)
    requires Published(p) && Reachable(p, s) && |s.records| < U64_LIMIT
    ensures RoomOf(Execute(p, s, bytes, context)) == Accepted(p, s, bytes, context)
  {
    hide Published, Reachable, Admit, Append, RoomKernel.Execute, SmallRoom, SmallAction, SmallOutcome, SmallCommand;
    ReachableIsSmall(p, s);
    if Accepted(p, s, bytes, context).Success? {
      AdmittedIsSmall(p, s, bytes, context);
      var admitted := Admit(p, s, bytes, context).value;
      var actor := admitted.envelope.intent.actor;
      var ran := Run(s.room, actor, admitted).value;
      if admitted.command.Some? {
        ExecuteStaysSmall(s.room, admitted.command.value);
      }
      AppendFits(p,
                 s.(room := ran.0, sequences := s.sequences[actor := admitted.nextSequence],
                    currentSlot := context.nowSlot),
                 Signed(admitted.envelope, context), ran.1);
    }
  }
}

/** Exactly which genesis is accepted, which envelopes are admitted, and whom a room can name. */
module GatewayAdmission {
  import opened Numbers
  import opened RoomModel
  import RoomKernel
  import RoomInvariant
  import RoomRuns
  import opened Codec
  import opened Wire
  import opened WireSizes
  import opened Gateway
  import opened GatewayRuns
  import opened GatewayFits

  // ---- Genesis ----

  /** Owners before delegates, each by identifier. */
  predicate Precedes(a: Actor, b: Actor) {
    (a.Owner? && b.Delegate?)
    || (a.Owner? && b.Owner? && a.owner < b.owner)
    || (a.Delegate? && b.Delegate? && a.delegate < b.delegate)
  }

  predicate WellBound(p: Protocol, principals: seq<PrincipalBinding>) {
    && (forall i :: 0 <= i < |principals| ==> p.acceptable(principals[i].publicKey))
    && (forall i, j :: 0 <= i < j < |principals| ==>
          Precedes(principals[i].actor, principals[j].actor) && principals[i].publicKey != principals[j].publicKey)
  }

  /** Bindings are valid exactly when they are strictly ordered, with acceptable keys that nobody shares. */
  lemma {:induction false} BindingsValidIff(p: Protocol, principals: seq<PrincipalBinding>)
    ensures ValidBindings(p, principals) <==> WellBound(p, principals)
  {
    if principals != [] {
      var (init, last) := (principals[..|principals| - 1], principals[|principals| - 1]);
      BindingsValidIff(p, init);
      if WellBound(p, principals) {
        assert WellBound(p, init) by {
          assert forall i :: 0 <= i < |init| ==> init[i] == principals[i];
        }
      }
      if ValidBindings(p, principals) {
        forall i | 0 <= i < |init| ensures Precedes(principals[i].actor, last.actor) {
          if i < |init| - 1 {
            assert Precedes(init[i].actor, init[|init| - 1].actor);
          }
        }
      }
    }
  }

  /** A genesis starts a gateway exactly when it binds and names everyone it needs, and fits the frame. */
  lemma NewSucceedsIff(p: Protocol, genesis: Genesis)
    ensures var (r, zeros) := (New(p, genesis), seq(32, _ => 0));
            if 1 <= |genesis.principals| <= 128
               && genesis.domain.network != zeros && genesis.domain.deployment != zeros
               && WellBound(p, genesis.principals)
               && (exists i :: 0 <= i < |genesis.principals|
                               && genesis.principals[i].actor == Owner(genesis.administrator))
               && |Prefixed(GENESIS_DOMAIN, p.format.genesis.enc(genesis))| <= 16_384
            then
              var hash := p.sha256(Prefixed(GENESIS_DOMAIN, p.format.genesis.enc(genesis)));
              && r.Success?
              && r.value.genesis == genesis && r.value.genesisHash == hash == r.value.head
              && r.value.records == [] && r.value.currentSlot == 0
              && r.value.room == RoomKernel.NewRoom(genesis.domain.room, genesis.administrator)
              && r.value.keys == KeysOf(genesis.principals)
              && r.value.sequences.Keys == r.value.keys.Keys
              && (forall a :: a in r.value.sequences ==> r.value.sequences[a] == 0)
            else r.Failure?
  {
    hide WellBound, ValidBindings, Prefixed;
    BindingsValidIff(p, genesis.principals);
    var administrator := Owner(genesis.administrator);
    if administrator in KeysOf(genesis.principals) {
      var i := RegistryKnows(genesis.principals, administrator);
    }
    if WellBound(p, genesis.principals)
        && exists i :: 0 <= i < |genesis.principals| && genesis.principals[i].actor == administrator
    {
      var i :| 0 <= i < |genesis.principals| && genesis.principals[i].actor == administrator;
      RegistryBinds(p, genesis.principals, i);
    }
  }

  // ---- Admission ----

  predicate IsTrade(a: Action) {
    a.ActOpen? || a.ActClose?
  }

  function MemberOf(a: Action): MemberId
    requires IsTrade(a)
  {
    if a.ActOpen? then a.openIntent.consent.member else a.closeIntent.consent.member
  }

  /** Whom an action would name as a delegate or let a cell underwrite: only bound principals. */
  predicate NamesBound(keys: map<Actor, bytes32>, a: Action) {
    && (a.ActAddMember? || a.ActChangePolicy? ==> a.delegate.Some? ==> Delegate(a.delegate.value) in keys)
    && (a.ActAddCell? || a.ActChangeCellPolicy? ==>
          forall i :: 0 <= i < |a.underwriting.allowedMembers| ==>
            Owner(a.underwriting.allowedMembers[i].owner) in keys)
  }

  /** An envelope in force: signed by a bound key for this genesis, next in sequence, in its window, and in terms. */
  predicate InForce(p: Protocol, s: AuthState, e: SignedEnvelope, context: ExecutionContext) {
    var (i, now) := (e.intent, context.nowSlot);
    && i.genesisHash == s.genesisHash && i.actor in s.keys
    && |Prefixed(INTENT_DOMAIN, p.format.intent.enc(i))| <= 16_384
    && p.verify(s.keys[i.actor], Prefixed(INTENT_DOMAIN, p.format.intent.enc(i)), e.signature)
    && i.actor in s.sequences && s.sequences[i.actor] == i.sequence && i.sequence < 0xFFFF_FFFF_FFFF_FFFF
    && s.currentSlot <= now && i.notBeforeSlot <= now <= i.expiresSlot <= i.notBeforeSlot + 10_000
    && (if IsTrade(i.action)
        then MemberOf(i.action) in s.room.members
             && i.authorizationRevision == Some(s.room.members[MemberOf(i.action)].policyRevision)
        else i.authorizationRevision.None?)
    && SmallAction(i.action) && NamesBound(s.keys, i.action)
    && (context.observation.Some? <==> IsTrade(i.action))
  }

  /** Bytes are admitted exactly when they decode to an envelope in force, which they then advance. */
  lemma AdmittedIff(p: Protocol, s: AuthState, bytes: seq<u8>, context: ExecutionContext)
    ensures var (r, decoded) := (Admit(p, s, bytes, context), Decode(p.format.envelope, bytes));
            if decoded.Success? && InForce(p, s, decoded.value, context)
            then r.Success? && r.value.envelope == decoded.value
                 && r.value.nextSequence == decoded.value.intent.sequence + 1
                 && (r.value.command.None? <==> decoded.value.intent.action.ActCancelPending?)
                 && (r.value.command.Some? ==>
                       ActionFrom(r.value.command.value) == Some(decoded.value.intent.action))
            else r.Failure?
  {
    hide Decode, Prefixed, CommandFor;
    var decoded := Decode(p.format.envelope, bytes);
    if decoded.Success? {
      CommandExists(decoded.value.intent, context);
      ChecksAgree(s, decoded.value.intent, context.nowSlot);
    }
  }

  lemma CommandExists(intent: Intent, context: ExecutionContext)
    ensures CommandFor(intent, context).Success? <==> (context.observation.Some? <==> IsTrade(intent.action))
    ensures CommandFor(intent, context).Success? ==>
              var command := CommandFor(intent, context).value;
              && (command.None? <==> intent.action.ActCancelPending?)
              && (command.Some? ==> ActionFrom(command.value) == Some(intent.action))
  {
    if CommandFor(intent, context).Success? {
      CommandSaysWhatWasSigned(intent, context);
    }
  }

  lemma ChecksAgree(s: AuthState, i: Intent, now: u64)
    ensures CheckTime(s, i, now).Pass? <==>
              s.currentSlot <= now && i.notBeforeSlot <= now <= i.expiresSlot <= i.notBeforeSlot + 10_000
    ensures CheckAction(s, i).Pass? <==>
              && (if IsTrade(i.action)
                  then MemberOf(i.action) in s.room.members
                       && i.authorizationRevision == Some(s.room.members[MemberOf(i.action)].policyRevision)
                  else i.authorizationRevision.None?)
              && SmallAction(i.action) && NamesBound(s.keys, i.action)
  {
  }

  /** Sixty-four entries a set. */
  lemma CapsAre(p: Policy, u: UnderwritingPolicy)
    ensures SmallPolicy(p) <==> |p.allowedMarkets| <= 64 && |p.allowedCells| <= 64
    ensures SmallUnderwriting(u) <==> |u.allowedMembers| <= 64 && |u.allowedMarketGenerations| <= 64
  {
  }

  // ---- Records ----

  /** A record, and what is hashed of it, fit the wire's frame. */
  predicate FitsFrame(p: Protocol, r: AuthenticatedRecord) {
    |p.format.record.enc(r)| <= 16_384 && |p.format.body.enc(BodyOf(r))| <= 16_384
  }

  /** A record is appended exactly when it fits and can be numbered: linked to the head, and itself the new one. */
  lemma AppendIff(p: Protocol, s: AuthState, evidence: Evidence, outcome: AuthOutcome)
    ensures var r := Append(p, s, evidence, outcome);
            if |s.records| < 0x1_0000_0000_0000_0000 then
              var body := (|s.records|, (s.head, (evidence, outcome)));
              var hash := p.sha256(ReceiptPreimage(p.format.body.enc(body)));
              var record := AuthenticatedRecord(|s.records|, s.head, evidence, outcome, hash);
              if FitsFrame(p, record) then r == Success((s.(records := s.records + [record], head := hash), record))
              else r == Failure(WireFault(TooLarge))
            else r.Failure?
  {
    hide ReceiptPreimage;
  }

  lemma StepFits(p: Protocol, s: AuthState, request: Request)
    requires Step(p, s, request).Success?
    ensures var (s', r) := Step(p, s, request).value; FitsFrame(p, r) && s'.records == s.records + [r]
  {
    hide RoomKernel.Execute, Admit, Append;
    match request
    case Submit(bytes, context) =>
      var a := Admit(p, s, bytes, context).value;
      var actor := a.envelope.intent.actor;
      var ran := Run(s.room, actor, a).value;
      AppendIff(p, s.(room := ran.0, sequences := s.sequences[actor := a.nextSequence], currentSlot := context.nowSlot),
                Signed(a.envelope, context), ran.1);
    case Settle(position, now) =>
      var ran := RoomKernel.Execute(s.room, SettleMatured(position, now)).value;
      AppendIff(p, s.(room := ran.0, currentSlot := now), Matured(position, now), Kernel(ran.1));
  }

  predicate AllFit(p: Protocol, records: seq<AuthenticatedRecord>) {
    forall k :: 0 <= k < |records| ==> FitsFrame(p, records[k])
  }

  lemma {:induction false} AfterFits(p: Protocol, s: AuthState, requests: seq<Request>)
    requires AllFit(p, s.records)
    ensures AllFit(p, After(p, s, requests).records)
  {
    hide FitsFrame, Step;
    if requests != [] {
      var init := requests[..|requests| - 1];
      AfterFits(p, s, init);
      if Step(p, After(p, s, init), requests[|requests| - 1]).Success? {
        StepFits(p, After(p, s, init), requests[|requests| - 1]);
      }
    }
  }

  /** Every record of a reachable gateway can be sent: it fits the frame, and so does what its hash covers. */
  lemma EveryRecordFits(p: Protocol, s: AuthState, k: nat)
    requires Reachable(p, s) && k < |s.records|
    ensures FitsFrame(p, s.records[k])
  {
    hide FitsFrame, After, Step;
    var requests :| s == After(p, New(p, s.genesis).value, requests);
    assert New(p, s.genesis).value.records == [];
    AfterFits(p, New(p, s.genesis).value, requests);
  }

  // ---- Whom a room can name ----

  /** Every owner, delegate and admitted owner a room knows is a bound principal. */
  predicate OnlyPrincipals(keys: map<Actor, bytes32>, room: RoomState) {
    && (forall m :: m in room.members ==>
          && Owner(room.members[m].owner) in keys
          && (room.members[m].delegate.Some? ==> Delegate(room.members[m].delegate.value) in keys))
    && (forall c :: c in room.cells ==>
          && Owner(room.cells[c].owner) in keys
          && forall i :: 0 <= i < |room.cells[c].policy.allowedMembers| ==>
               Owner(room.cells[c].policy.allowedMembers[i].owner) in keys)
  }

  predicate CommandNames(keys: map<Actor, bytes32>, c: Command) {
    ActionFrom(c).Some? ==> c.actor in keys && NamesBound(keys, ActionFrom(c).value)
  }

  lemma MemberNames(keys: map<Actor, bytes32>, s: RoomState, c: Command)
    requires OnlyPrincipals(keys, s) && CommandNames(keys, c) && RoomKernel.Execute(s, c).Success?
    requires c.AddMember? || c.ChangePolicy?
    ensures OnlyPrincipals(keys, RoomKernel.Execute(s, c).value.0)
  {
    hide RoomKernel.Reconciles, ValidatePolicy, Ascending;
  }

  lemma CellNames(keys: map<Actor, bytes32>, s: RoomState, c: Command)
    requires OnlyPrincipals(keys, s) && CommandNames(keys, c) && RoomKernel.Execute(s, c).Success?
    requires c.AddCell? || c.ChangeCellPolicy?
    ensures OnlyPrincipals(keys, RoomKernel.Execute(s, c).value.0)
  {
    hide RoomKernel.Reconciles, ValidateUnderwriting, Ascending;
  }

  lemma MoneyNames(keys: map<Actor, bytes32>, s: RoomState, c: Command)
    requires OnlyPrincipals(keys, s) && RoomKernel.Execute(s, c).Success?
    requires c.RegisterMarket? || c.Contribute? || c.FundCell? || c.Withdraw? || c.WithdrawCell?
             || c.RecordTerminalObservation?
    ensures OnlyPrincipals(keys, RoomKernel.Execute(s, c).value.0)
  {
    hide RoomKernel.Reconciles, ValidateMarket, Ascending;
  }

  lemma TradeNames(keys: map<Actor, bytes32>, s: RoomState, c: Command)
    requires OnlyPrincipals(keys, s) && RoomKernel.Execute(s, c).Success?
    requires c.Open? || c.Close? || c.SettleMatured?
    ensures OnlyPrincipals(keys, RoomKernel.Execute(s, c).value.0)
  {
    hide RoomKernel.Reconciles, RoomKernel.AdmitOpen, RoomKernel.AdmitClose, RoomKernel.OpenPosition,
         RoomKernel.SettlePosition, PayoutAt, Ascending;
    var s1 := RoomKernel.WithSlot(s, c);
    match c
    case Open(actor, intent, observation, now) =>
      RoomInvariant.OpenShape(s1, RoomKernel.AdmitOpen(s1, actor, intent, observation, now).value);
    case Close(actor, intent, observation, now) =>
      RoomInvariant.SettleShape(s1, RoomKernel.AdmitClose(s1, actor, intent, observation, now).value, observation, now,
                                true);
    case SettleMatured(position, now) =>
      RoomInvariant.SettleShape(s1, s1.positions[position], s1.terminal[KeyOf(s1.positions[position])], now, false);
  }

  lemma ExecuteNames(keys: map<Actor, bytes32>, s: RoomState, c: Command)
    requires OnlyPrincipals(keys, s) && CommandNames(keys, c) && RoomKernel.Execute(s, c).Success?
    ensures OnlyPrincipals(keys, RoomKernel.Execute(s, c).value.0)
  {
    hide RoomKernel.Execute, OnlyPrincipals, CommandNames;
    if c.AddMember? || c.ChangePolicy? {
      MemberNames(keys, s, c);
    } else if c.AddCell? || c.ChangeCellPolicy? {
      CellNames(keys, s, c);
    } else if c.Open? || c.Close? || c.SettleMatured? {
      TradeNames(keys, s, c);
    } else {
      MoneyNames(keys, s, c);
    }
  }

  lemma AdmittedNames(p: Protocol, s: AuthState, bytes: seq<u8>, context: ExecutionContext)
    requires Admit(p, s, bytes, context).Success? && Admit(p, s, bytes, context).value.command.Some?
    ensures CommandNames(s.keys, Admit(p, s, bytes, context).value.command.value)
  {
    hide Admit, SmallAction;
    AdmittedIff(p, s, bytes, context);
    AdmitFacts(p, s, bytes, context);
    CommandSaysWhatWasSigned(Admit(p, s, bytes, context).value.envelope.intent, context);
  }

  lemma StepNames(p: Protocol, s: AuthState, request: Request)
    requires OnlyPrincipals(s.keys, s.room) && Step(p, s, request).Success?
    ensures OnlyPrincipals(s.keys, Step(p, s, request).value.0.room)
  {
    hide RoomKernel.Execute, Execute, SettlePosition, Admit, OnlyPrincipals, CommandNames;
    match request
    case Submit(bytes, context) =>
      SubmitMoves(p, s, bytes, context);
      var command := Admit(p, s, bytes, context).value.command;
      if command.Some? {
        AdmittedNames(p, s, bytes, context);
        ExecuteNames(s.keys, s.room, command.value);
      }
    case Settle(position, now) =>
      SettleMoves(p, s, position, now);
      SettlingNamesNobody(s.keys, position, now);
      ExecuteNames(s.keys, s.room, SettleMatured(position, now));
  }

  lemma SettlingNamesNobody(keys: map<Actor, bytes32>, position: PositionId, now: u64)
    ensures CommandNames(keys, SettleMatured(position, now))
  {
  }

  lemma {:induction false} AfterNames(p: Protocol, s: AuthState, requests: seq<Request>)
    requires OnlyPrincipals(s.keys, s.room)
    ensures OnlyPrincipals(s.keys, After(p, s, requests).room) && After(p, s, requests).keys == s.keys
  {
    hide OnlyPrincipals, Step;
    if requests != [] {
      var init := requests[..|requests| - 1];
      AfterNames(p, s, init);
      if Step(p, After(p, s, init), requests[|requests| - 1]).Success? {
        StepNames(p, After(p, s, init), requests[|requests| - 1]);
        StepIsLater(p, After(p, s, init), requests[|requests| - 1]);
      }
    }
  }

  /** In every reachable gateway the room knows nobody its genesis did not bind. */
  lemma RoomsNameOnlyPrincipals(p: Protocol, s: AuthState)
    requires Reachable(p, s)
    ensures OnlyPrincipals(s.keys, s.room)
  {
    hide After;
    var requests :| s == After(p, New(p, s.genesis).value, requests);
    AfterNames(p, New(p, s.genesis).value, requests);
  }

  // ---- Permissionless settlement ----

  /** The room a kernel command leads to, or its error. */
  function FromRoom(r: Result<(RoomState, Outcome), Error>): Result<RoomState, AuthError> {
    if r.Success? then Success(r.value.0) else Failure(KernelFault(r.error))
  }

  lemma SettledFits(p: Protocol, s: AuthState, position: PositionId, now: u64, outcome: Outcome)
    requires Published(p) && outcome.Closed? && |s.records| < U64_LIMIT
    ensures RoomOf(Append(p, s, Matured(position, now), Kernel(outcome))) == Success(s.room)
  {
    hide Append;
    AppendSettlement(p, s, position, now, outcome);
  }

  /** Settling through the gateway leads where the kernel leads at the same slot, never before the gateway's clock. */
  lemma SettlementNeverRefuses(p: Protocol, s: AuthState, position: PositionId, now: u64)
    requires Published(p) && |s.records| < U64_LIMIT
    ensures RoomOf(SettlePosition(p, s, position, now))
            == if now < s.currentSlot then Failure(AuthError.InvalidTime)
               else FromRoom(RoomKernel.Execute(s.room, SettleMatured(position, now)))
  {
    hide RoomKernel.Execute, Append, Published;
    var ran := RoomKernel.Execute(s.room, SettleMatured(position, now));
    if s.currentSlot <= now && ran.Success? {
      SettlingCloses(s.room, position, now);
      SettledFits(p, s.(room := ran.value.0, currentSlot := now), position, now, ran.value.1);
    }
  }

  lemma SettlingCloses(room: RoomState, position: PositionId, now: u64)
    requires RoomKernel.Execute(room, SettleMatured(position, now)).Success?
    ensures RoomKernel.Execute(room, SettleMatured(position, now)).value.1.Closed?
  {
    hide RoomKernel.Reconciles, PayoutAt;
  }
}

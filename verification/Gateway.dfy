/** The authenticated gateway: signed envelopes in, hash-chained records out. */
module Gateway {
  import opened Numbers
  import opened RoomModel
  import opened Codec
  import opened Wire
  import RoomKernel

  const MAX_PRINCIPALS := 128
  const MAX_POLICY_ENTRIES := 64
  const MAX_AUTH_LIFETIME_SLOTS := 10_000

  /**
   * What the gateway is built on: the wire format, SHA-256, Ed25519 strict verification (RFC 8032,
   * section 5.1.7) and the test for canonical prime-order keys.
   */
  datatype Protocol = Protocol(
    format: Format, sha256: seq<u8> -> bytes32, verify: (bytes32, seq<u8>, bytes64) -> bool,
    acceptable: bytes32 -> bool)

  datatype AuthError =
    | WireFault(wire: WireError)
    | KernelFault(kernel: Error)
    | InvalidGenesis
    | UnknownPrincipal
    | InvalidSignature
    | WrongDomain
    | WrongSequence
    | InvalidTime
    | WrongAuthorizationRevision
    | UnexpectedContext
    | LimitExceeded
    | Arithmetic
    | TranscriptMismatch

  datatype AuthState = AuthState(
    genesis: Genesis, genesisHash: bytes32, keys: map<Actor, bytes32>, sequences: map<Actor, u64>,
    room: RoomState, currentSlot: u64, records: seq<AuthenticatedRecord>, head: bytes32)

  function FromWire<T>(r: Result<T, WireError>): Result<T, AuthError> {
    if r.Success? then Success(r.value) else Failure(WireFault(r.error))
  }

  function FromKernel<T>(r: Result<T, Error>): Result<T, AuthError> {
    if r.Success? then Success(r.value) else Failure(KernelFault(r.error))
  }

  // ---- Genesis ----

  /** By role, then by identifier. */
  predicate ActorLess(a: Actor, b: Actor) {
    match (a, b)
    case (Owner(x), Owner(y)) => x < y
    case (Owner(_), Delegate(_)) => true
    case (Delegate(_), Owner(_)) => false
    case (Delegate(x), Delegate(y)) => x < y
  }

  /** Strictly ordered actors, each with an acceptable key of its own. */
  predicate ValidBindings(p: Protocol, principals: seq<PrincipalBinding>) {
    principals == []
    || (var (init, last) := (principals[..|principals| - 1], principals[|principals| - 1]);
        && ValidBindings(p, init)
        && (init != [] ==> ActorLess(init[|init| - 1].actor, last.actor))
        && (forall j :: 0 <= j < |init| ==> init[j].publicKey != last.publicKey)
        && p.acceptable(last.publicKey))
  }

  function KeysOf(principals: seq<PrincipalBinding>): map<Actor, bytes32> {
    if principals == [] then map[]
    else
      var last := principals[|principals| - 1];
      KeysOf(principals[..|principals| - 1])[last.actor := last.publicKey]
  }

  function Zeroed(keys: map<Actor, bytes32>): map<Actor, u64> {
    map actor | actor in keys :: 0
  }

  function Fresh(genesis: Genesis, hash: bytes32): AuthState {
    var keys := KeysOf(genesis.principals);
    AuthState(genesis, hash, keys, Zeroed(keys), RoomKernel.NewRoom(genesis.domain.room, genesis.administrator), 0, [],
              hash)
  }

  const NO_DOMAIN: seq<u8> := seq(32, _ => 0)

  function New(p: Protocol, genesis: Genesis): Result<AuthState, AuthError> {
    if !(0 < |genesis.principals| <= MAX_PRINCIPALS) then Failure(InvalidGenesis) else
    :- Need(genesis.domain.network != NO_DOMAIN && genesis.domain.deployment != NO_DOMAIN, InvalidGenesis);
    :- Need(ValidBindings(p, genesis.principals), InvalidGenesis);
    :- Need(Owner(genesis.administrator) in KeysOf(genesis.principals), InvalidGenesis);
    var bytes :- FromWire(EncodePrefixed(GENESIS_DOMAIN, p.format.genesis, genesis));
    Success(Fresh(genesis, p.sha256(bytes)))
  }

  // ---- Admission ----

  function CheckTime(s: AuthState, intent: Intent, now: u64): Check<AuthError> {
    Need(
      && s.currentSlot <= now
      && intent.notBeforeSlot <= intent.expiresSlot
      && intent.expiresSlot - intent.notBeforeSlot <= MAX_AUTH_LIFETIME_SLOTS
      && intent.notBeforeSlot <= now <= intent.expiresSlot,
      AuthError.InvalidTime)
  }

  /** The consent a trade carries; other actions carry none. */
  function ConsentOf(action: Action): Option<Consent> {
    match action
    case ActOpen(intent) => Some(intent.consent)
    case ActClose(intent) => Some(intent.consent)
    case _ => None
  }

  function CheckRevision(s: AuthState, intent: Intent): Check<AuthError> {
    var consent := ConsentOf(intent.action);
    if consent.Some? then
      if consent.value.member !in s.room.members then Fail(KernelFault(UnknownMember))
      else
        Need(intent.authorizationRevision == Some(s.room.members[consent.value.member].policyRevision),
             WrongAuthorizationRevision)
    else
      Need(intent.authorizationRevision.None?, WrongAuthorizationRevision)
  }

  function CheckPolicyKeys(s: AuthState, delegate: Option<DelegateId>, policy: Policy): Check<AuthError> {
    if |policy.allowedMarkets| > MAX_POLICY_ENTRIES || |policy.allowedCells| > MAX_POLICY_ENTRIES
        then Fail(LimitExceeded)
    else Need(delegate.Some? ==> Delegate(delegate.value) in s.keys, UnknownPrincipal)
  }

  function CheckUnderwritingKeys(s: AuthState, policy: UnderwritingPolicy): Check<AuthError> {
    if |policy.allowedMembers| > MAX_POLICY_ENTRIES || |policy.allowedMarketGenerations| > MAX_POLICY_ENTRIES
        then Fail(LimitExceeded)
    else Need(forall i :: 0 <= i < |policy.allowedMembers| ==> Owner(policy.allowedMembers[i].owner) in s.keys,
              UnknownPrincipal)
  }

  function CheckAction(s: AuthState, intent: Intent): Check<AuthError> {
    var revision := CheckRevision(s, intent);
    if revision.Fail? then revision
    else
      match intent.action
      case ActAddMember(_, delegate, policy) => CheckPolicyKeys(s, delegate, policy)
      case ActChangePolicy(_, _, delegate, policy) => CheckPolicyKeys(s, delegate, policy)
      case ActAddCell(_, policy) => CheckUnderwritingKeys(s, policy)
      case ActChangeCellPolicy(_, _, policy) => CheckUnderwritingKeys(s, policy)
      case _ => Pass
  }

  /** The kernel command an intent stands for, `None` for a cancellation. */
  function CommandFor(intent: Intent, context: ExecutionContext): Result<Option<Command>, AuthError> {
    if ConsentOf(intent.action).Some? != context.observation.Some? then Failure(UnexpectedContext) else
    var (actor, now) := (intent.actor, context.nowSlot);
    Success(
      match intent.action
      case ActRegisterMarket(market) => Some(RegisterMarket(actor, market))
      case ActAddCell(cell, policy) => Some(AddCell(actor, cell, policy))
      case ActChangeCellPolicy(cell, revision, policy) => Some(ChangeCellPolicy(actor, cell, revision, policy))
      case ActAddMember(member, delegate, policy) => Some(AddMember(actor, member, delegate, policy))
      case ActChangePolicy(member, revision, delegate, policy) =>
        Some(ChangePolicy(actor, member, revision, delegate, policy))
      case ActContribute(member, amount) => Some(Contribute(actor, member, amount))
      case ActFundCell(cell, amount) => Some(FundCell(actor, cell, amount))
      case ActWithdraw(member, amount) => Some(Withdraw(actor, member, amount))
      case ActWithdrawCell(cell, amount) => Some(WithdrawCell(actor, cell, amount))
      case ActOpen(trade) => Some(Open(actor, trade, context.observation.value, now))
      case ActClose(trade) => Some(Close(actor, trade, context.observation.value, now))
      case ActRecordTerminalObservation(position, observation) =>
        Some(RecordTerminalObservation(actor, position, observation, now))
      case ActCancelPending => None)
  }

  /** Who signed what: the envelope is for this genesis, from a bound key, over its exact intent. */
  function Authenticate(p: Protocol, genesisHash: bytes32, keys: map<Actor, bytes32>, bytes: seq<u8>)
    : Result<SignedEnvelope, AuthError>
  {
    var envelope :- FromWire(Decode(p.format.envelope, bytes));
    :- Need(envelope.intent.genesisHash == genesisHash, WrongDomain);
    :- Need(envelope.intent.actor in keys, UnknownPrincipal);
    var signed :- FromWire(EncodePrefixed(INTENT_DOMAIN, p.format.intent, envelope.intent));
    :- Need(p.verify(keys[envelope.intent.actor], signed, envelope.signature), InvalidSignature);
    Success(envelope)
  }

  datatype Admitted = Admitted(envelope: SignedEnvelope, nextSequence: u64, command: Option<Command>)

  function Admit(p: Protocol, s: AuthState, bytes: seq<u8>, context: ExecutionContext): Result<Admitted, AuthError> {
    var envelope :- Authenticate(p, s.genesisHash, s.keys, bytes);
    var intent := envelope.intent;
    :- Need(intent.actor in s.sequences && s.sequences[intent.actor] == intent.sequence, WrongSequence);
    :- Need(intent.sequence + 1 < U64_LIMIT, AuthError.Arithmetic);
    :- CheckTime(s, intent, context.nowSlot);
    :- CheckAction(s, intent);
    var command :- CommandFor(intent, context);
    Success(Admitted(envelope, intent.sequence + 1, command))
  }

  // ---- Transitions ----

  ghost function Run(room: RoomState, actor: Actor, admitted: Admitted): Result<(RoomState, AuthOutcome), AuthError> {
    if admitted.command.None? then Success((room, NonceAdvanced(actor, admitted.nextSequence)))
    else
      var ran :- FromKernel(RoomKernel.Execute(room, admitted.command.value));
      Success((ran.0, Kernel(ran.1)))
  }

  function RecordFor(p: Protocol, s: AuthState, evidence: Evidence, outcome: AuthOutcome): AuthenticatedRecord
    requires |s.records| < U64_LIMIT
  {
    var body := (|s.records|, (s.head, (evidence, outcome)));
    AuthenticatedRecord(|s.records|, s.head, evidence, outcome, p.sha256(ReceiptPreimage(p.format.body.enc(body))))
  }

  function Append(p: Protocol, s: AuthState, evidence: Evidence, outcome: AuthOutcome)
    : Result<(AuthState, AuthenticatedRecord), AuthError>
  {
    if |s.records| >= U64_LIMIT then Failure(AuthError.Arithmetic) else
    var record := RecordFor(p, s, evidence, outcome);
    var _ :- FromWire(Encode(p.format.body, BodyOf(record)));
    var _ :- FromWire(Encode(p.format.record, record));
    Success((s.(records := s.records + [record], head := record.hash), record))
  }

  ghost function Execute(p: Protocol, s: AuthState, bytes: seq<u8>, context: ExecutionContext)
    : Result<(AuthState, AuthenticatedRecord), AuthError>
  {
    var admitted :- Admit(p, s, bytes, context);
    var actor := admitted.envelope.intent.actor;
    var ran :- Run(s.room, actor, admitted);
    Append(p,
           s.(room := ran.0, sequences := s.sequences[actor := admitted.nextSequence], currentSlot := context.nowSlot),
           Signed(admitted.envelope, context), ran.1)
  }

  ghost function SettlePosition(p: Protocol, s: AuthState, position: PositionId, now: u64)
    : Result<(AuthState, AuthenticatedRecord), AuthError>
  {
    if now < s.currentSlot then Failure(AuthError.InvalidTime) else
    var ran :- FromKernel(RoomKernel.Execute(s.room, SettleMatured(position, now)));
    Append(p, s.(room := ran.0, currentSlot := now), Matured(position, now), Kernel(ran.1))
  }

  // ---- Replay ----

  /** Re-authenticate and re-execute what one record claims happened. */
  ghost function Redo(p: Protocol, s: AuthState, evidence: Evidence)
    : Result<(AuthState, AuthenticatedRecord), AuthError>
  {
    match evidence
    case Signed(envelope, context) =>
      var bytes :- FromWire(Encode(p.format.envelope, envelope));
      Execute(p, s, bytes, context)
    case Matured(position, now) => SettlePosition(p, s, position, now)
  }

  ghost function Rebuild(p: Protocol, genesis: Genesis, records: seq<AuthenticatedRecord>)
    : Result<AuthState, AuthError>
  {
    if records == [] then New(p, genesis)
    else
      var last := records[|records| - 1];
      var before :- Rebuild(p, genesis, records[..|records| - 1]);
      var redone :- Redo(p, before, last.evidence);
      :- Need(redone.1 == last, TranscriptMismatch);
      Success(redone.0)
  }

  ghost function Replay(p: Protocol, genesis: Genesis, records: seq<AuthenticatedRecord>, expectedHead: bytes32)
    : Result<AuthState, AuthError>
  {
    var rebuilt :- Rebuild(p, genesis, records);
    :- Need(rebuilt.head == expectedHead, TranscriptMismatch);
    Success(rebuilt)
  }
}

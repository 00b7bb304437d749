/** Theorems over every run of the authenticated gateway. */
module GatewayRuns {
  import opened Numbers
  import opened RoomModel
  import RoomKernel
  import RoomInvariant
  import RoomRuns
  import opened Codec
  import opened Wire
  import opened Gateway

  /** What the outside world can ask of a gateway. */
  datatype Request = Submit(bytes: seq<u8>, context: ExecutionContext) | Settle(position: PositionId, now: u64)

  ghost function Step(p: Protocol, s: AuthState, request: Request)
    : Result<(AuthState, AuthenticatedRecord), AuthError>
  {
    match request
    case Submit(bytes, context) => Execute(p, s, bytes, context)
    case Settle(position, now) => SettlePosition(p, s, position, now)
  }

  /** The gateway after a list of attempted requests; a refused request changes nothing. */
  ghost function After(p: Protocol, s: AuthState, requests: seq<Request>): AuthState {
    if requests == [] then s
    else
      var before := After(p, s, requests[..|requests| - 1]);
      var r := Step(p, before, requests[|requests| - 1]);
      if r.Success? then r.value.0 else before
  }

  // ---- The registry ----

  lemma ActorOrder(a: Actor, b: Actor, c: Actor)
    ensures !ActorLess(a, a)
    ensures ActorLess(a, b) && ActorLess(b, c) ==> ActorLess(a, c)
  {
  }

  lemma {:induction false} LastActorIsGreatest(p: Protocol, principals: seq<PrincipalBinding>, i: nat)
    requires ValidBindings(p, principals) && i < |principals| - 1
    ensures ActorLess(principals[i].actor, principals[|principals| - 1].actor)
  {
    hide ActorLess;
    var init := principals[..|principals| - 1];
    if i < |init| - 1 {
      LastActorIsGreatest(p, init, i);
      ActorOrder(init[i].actor, init[|init| - 1].actor, principals[|principals| - 1].actor);
    }
  }

  /** Every principal acts under exactly the acceptable key its genesis binds. */
  lemma {:induction false} RegistryBinds(p: Protocol, principals: seq<PrincipalBinding>, i: nat)
    requires ValidBindings(p, principals) && i < |principals|
    ensures principals[i].actor in KeysOf(principals)
    ensures KeysOf(principals)[principals[i].actor] == principals[i].publicKey
    ensures p.acceptable(principals[i].publicKey)
  {
    hide ActorLess;
    var (init, last) := (principals[..|principals| - 1], principals[|principals| - 1]);
    if i < |init| {
      RegistryBinds(p, init, i);
      LastActorIsGreatest(p, principals, i);
      ActorOrder(last.actor, last.actor, last.actor);
      assert init[i] == principals[i];
    }
  }

  /** No actor is known that genesis does not bind. */
  lemma {:induction false} RegistryKnows(principals: seq<PrincipalBinding>, actor: Actor) returns (i: nat)
    requires actor in KeysOf(principals)
    ensures i < |principals| && principals[i].actor == actor && principals[i].publicKey == KeysOf(principals)[actor]
  {
    var (init, last) := (principals[..|principals| - 1], principals[|principals| - 1]);
    if actor == last.actor {
      i := |init|;
    } else {
      i := RegistryKnows(init, actor);
    }
  }

  lemma {:induction false} KeysDiffer(p: Protocol, principals: seq<PrincipalBinding>, i: nat, j: nat)
    requires ValidBindings(p, principals) && i < j < |principals|
    ensures principals[i].publicKey != principals[j].publicKey
    decreases |principals|
  {
    hide ActorLess;
    var init := principals[..|principals| - 1];
    if j < |init| {
      KeysDiffer(p, init, i, j);
    } else {
      assert init[i] == principals[i];
    }
  }

  /** No two actors share a key, so a signature names its signer. */
  lemma NoSharedKeys(p: Protocol, principals: seq<PrincipalBinding>, a: Actor, b: Actor)
    requires ValidBindings(p, principals) && a in KeysOf(principals) && b in KeysOf(principals) && a != b
    ensures KeysOf(principals)[a] != KeysOf(principals)[b]
  {
    hide ValidBindings;
    var i := RegistryKnows(principals, a);
    var j := RegistryKnows(principals, b);
    if i < j {
      KeysDiffer(p, principals, i, j);
    } else {
      KeysDiffer(p, principals, j, i);
    }
  }

  // ---- What one accepted request does ----

  /** The hash the first `k` records leave at the head. */
  function HashAt(s: AuthState, k: nat): bytes32
    requires k <= |s.records|
  {
    if k == 0 then s.genesisHash else s.records[k - 1].hash
  }

  /** The bytes that hash commits to. */
  function Link(p: Protocol, s: AuthState, k: nat): seq<u8>
    requires k <= |s.records|
  {
    if k == 0 then Prefixed(GENESIS_DOMAIN, p.format.genesis.enc(s.genesis))
    else ReceiptPreimage(p.format.body.enc(BodyOf(s.records[k - 1])))
  }

  predicate Appended(p: Protocol, s: AuthState, s': AuthState, r: AuthenticatedRecord) {
    && s' == s.(room := s'.room, sequences := s'.sequences, currentSlot := s'.currentSlot, records := s.records + [r],
                head := r.hash)
    && r.index == |s.records|
    && r.previousHash == s.head
    && r.hash == p.sha256(ReceiptPreimage(p.format.body.enc(BodyOf(r))))
  }

  /** A command that the kernel executed, or a cancellation that left it alone. */
  ghost predicate Ran(room: RoomState, room': RoomState, command: Option<Command>, outcome: AuthOutcome) {
    if command.None? then room' == room && outcome.NonceAdvanced?
    else
      var executed := RoomKernel.Execute(room, command.value);
      executed.Success? && room' == executed.value.0 && outcome == Kernel(executed.value.1)
  }

  lemma SubmitMoves(p: Protocol, s: AuthState, bytes: seq<u8>, context: ExecutionContext)
    requires Execute(p, s, bytes, context).Success?
    ensures Admit(p, s, bytes, context).Success?
    ensures var a := Admit(p, s, bytes, context).value;
            var (s', r) := Execute(p, s, bytes, context).value;
            && Appended(p, s, s', r)
            && r.evidence == Signed(a.envelope, context)
            && Ran(s.room, s'.room, a.command, r.outcome)
            && s'.sequences == s.sequences[a.envelope.intent.actor := a.nextSequence]
            && s'.currentSlot == context.nowSlot
  {
    hide RoomKernel.Execute, Admit, Encode;
  }

  lemma AdmitFacts(p: Protocol, s: AuthState, bytes: seq<u8>, context: ExecutionContext)
    requires Admit(p, s, bytes, context).Success?
    ensures var a := Admit(p, s, bytes, context).value;
            var intent := a.envelope.intent;
            && Authenticate(p, s.genesisHash, s.keys, bytes) == Success(a.envelope)
            && intent.actor in s.sequences && s.sequences[intent.actor] == intent.sequence
            && a.nextSequence == intent.sequence + 1
            && s.currentSlot <= context.nowSlot
            && intent.notBeforeSlot <= context.nowSlot <= intent.expiresSlot
            && intent.expiresSlot - intent.notBeforeSlot <= 10_000
            && CommandFor(intent, context) == Success(a.command)
            && CheckRevision(s, intent).Pass?
  {
    hide Authenticate, CommandFor, CheckRevision, CheckPolicyKeys, CheckUnderwritingKeys;
  }

  lemma SettleMoves(p: Protocol, s: AuthState, position: PositionId, now: u64)
    requires SettlePosition(p, s, position, now).Success?
    ensures var (s', r) := SettlePosition(p, s, position, now).value;
            && Appended(p, s, s', r)
            && r.evidence == Matured(position, now)
            && Ran(s.room, s'.room, Some(SettleMatured(position, now)), r.outcome)
            && s'.sequences == s.sequences
            && s.currentSlot <= now == s'.currentSlot
  {
    hide RoomKernel.Execute, Encode;
  }

  // ---- What only ever moves one way ----

  predicate Later(s: AuthState, s': AuthState) {
    && s'.genesis == s.genesis && s'.genesisHash == s.genesisHash && s'.keys == s.keys
    && s.sequences.Keys == s'.sequences.Keys
    && (forall a :: a in s.sequences ==> s.sequences[a] <= s'.sequences[a])
    && RoomRuns.RevisionsGrow(s.room.members, s'.room.members)
    && s.currentSlot <= s'.currentSlot
    && s.records <= s'.records
  }

  lemma StepIsLater(p: Protocol, s: AuthState, request: Request)
    requires Step(p, s, request).Success?
    ensures Later(s, Step(p, s, request).value.0)
  {
    hide RoomKernel.Execute, Execute, SettlePosition, Admit, CommandFor;
    match request
    case Submit(bytes, context) =>
      SubmitMoves(p, s, bytes, context);
      AdmitFacts(p, s, bytes, context);
      var command := Admit(p, s, bytes, context).value.command;
      if command.Some? {
        RoomRuns.RevisionsKept(s.room, command.value);
      }
    case Settle(position, now) =>
      SettleMoves(p, s, position, now);
      RoomRuns.RevisionsKept(s.room, SettleMatured(position, now));
  }

  lemma {:induction false} AfterIsLater(p: Protocol, s: AuthState, requests: seq<Request>)
    ensures Later(s, After(p, s, requests))
  {
    hide Step;
    if requests != [] {
      var init := requests[..|requests| - 1];
      AfterIsLater(p, s, init);
      if Step(p, After(p, s, init), requests[|requests| - 1]).Success? {
        StepIsLater(p, After(p, s, init), requests[|requests| - 1]);
      }
    }
  }

  // ---- At most once ----

  /**
   * Whatever is attempted afterwards, and whatever context it comes with, an accepted envelope is refused as a repeat.
   */
  lemma AcceptedNeverAgain(p: Protocol, s: AuthState, bytes: seq<u8>, context: ExecutionContext,
                           requests: seq<Request>, again: ExecutionContext)
    requires Execute(p, s, bytes, context).Success?
    ensures Execute(p, After(p, Execute(p, s, bytes, context).value.0, requests), bytes, again)
        == Failure(WrongSequence)
  {
    hide Execute, After, Authenticate, CommandFor, CheckRevision;
    SubmitMoves(p, s, bytes, context);
    AdmitFacts(p, s, bytes, context);
    var s1 := Execute(p, s, bytes, context).value.0;
    AfterIsLater(p, s1, requests);
    SpentSequence(p, After(p, s1, requests), bytes, again);
  }

  lemma SpentSequence(p: Protocol, s: AuthState, bytes: seq<u8>, context: ExecutionContext)
    requires Authenticate(p, s.genesisHash, s.keys, bytes).Success?
    requires var intent := Authenticate(p, s.genesisHash, s.keys, bytes).value.intent;
             intent.actor in s.sequences && intent.sequence < s.sequences[intent.actor]
    ensures Execute(p, s, bytes, context) == Failure(WrongSequence)
  {
    hide Authenticate, CheckTime, CheckAction, CommandFor, Append, Run;
  }

  // ---- Revocation ----

  /** A trade bound to an older authorization revision stays refused in every later state. */
  lemma StaleTradeNeverRevives(p: Protocol, s: AuthState, bytes: seq<u8>, requests: seq<Request>,
                               context: ExecutionContext)
    requires Authenticate(p, s.genesisHash, s.keys, bytes).Success?
    requires var intent := Authenticate(p, s.genesisHash, s.keys, bytes).value.intent;
             && ConsentOf(intent.action).Some?
             && var member := ConsentOf(intent.action).value.member;
                && member in s.room.members
                && intent.authorizationRevision.Some?
                && intent.authorizationRevision.value < s.room.members[member].policyRevision
    ensures Execute(p, After(p, s, requests), bytes, context).Failure?
  {
    hide Execute, After, Authenticate, CommandFor;
    AfterIsLater(p, s, requests);
    var s' := After(p, s, requests);
    if Execute(p, s', bytes, context).Success? {
      SubmitMoves(p, s', bytes, context);
      AdmitFacts(p, s', bytes, context);
      assert false;
    }
  }

  /**
   * Once a member's policy or delegate is changed, no trade bound to the revision before can ever be accepted, even if
   * the same delegate is granted again.
   */
  lemma RevocationIsFinal(p: Protocol, s: AuthState, change: seq<u8>, changed: ExecutionContext, requests: seq<Request>,
                          trade: seq<u8>, context: ExecutionContext)
    requires Execute(p, s, change, changed).Success? && Authenticate(p, s.genesisHash, s.keys, trade).Success?
    requires Authenticate(p, s.genesisHash, s.keys, change).Success?
    requires var (c, t) := (Authenticate(p, s.genesisHash, s.keys, change).value.intent.action,
                            Authenticate(p, s.genesisHash, s.keys, trade).value.intent);
             && c.ActChangePolicy?
             && ConsentOf(t.action).Some? && ConsentOf(t.action).value.member == c.member
             && c.member in s.room.members
             && t.authorizationRevision == Some(s.room.members[c.member].policyRevision)
    ensures Execute(p, After(p, Execute(p, s, change, changed).value.0, requests), trade, context).Failure?
  {
    hide Execute, After, Authenticate, RoomKernel.Execute;
    SubmitMoves(p, s, change, changed);
    AdmitFacts(p, s, change, changed);
    var a := Admit(p, s, change, changed).value;
    RoomRuns.RevisionsKept(s.room, a.command.value);
    StaleTradeNeverRevives(p, Execute(p, s, change, changed).value.0, trade, requests, context);
  }

  // ---- What every reachable gateway's transcript says ----

  function SignedBy(r: AuthenticatedRecord): Option<Actor> {
    if r.evidence.Signed? then Some(r.evidence.envelope.intent.actor) else None
  }

  /** How many of an actor's envelopes were accepted. */
  function AcceptedFrom(records: seq<AuthenticatedRecord>, actor: Actor): nat {
    if records == [] then 0
    else
      AcceptedFrom(records[..|records| - 1], actor) + if SignedBy(records[|records| - 1]) == Some(actor) then 1 else 0
  }

  lemma AcceptedUnfolds(records: seq<AuthenticatedRecord>, r: AuthenticatedRecord, actor: Actor)
    ensures AcceptedFrom(records + [r], actor)
         == AcceptedFrom(records, actor) + if SignedBy(r) == Some(actor) then 1 else 0
  {
    assert (records + [r])[..|records|] == records;
  }

  lemma {:induction false} AcceptedGrows(records: seq<AuthenticatedRecord>, j: nat, k: nat, actor: Actor)
    requires j < k <= |records| && SignedBy(records[j]) == Some(actor)
    ensures AcceptedFrom(records[..j], actor) < AcceptedFrom(records[..k], actor)
    decreases k
  {
    assert records[..k][..k - 1] == records[..k - 1];
    if j < k - 1 {
      AcceptedGrows(records, j, k - 1, actor);
    }
  }

  /**
   * What the kernel executed for a record: a signed record's command is rebuilt from what was signed and the host's
   * context.
   */
  function EffectOf(r: AuthenticatedRecord): seq<Record> {
    match r.evidence
    case Matured(position, now) =>
      if r.outcome.Kernel? then [Record(SettleMatured(position, now), r.outcome.outcome)] else []
    case Signed(envelope, context) =>
      var command := CommandFor(envelope.intent, context);
      if command.Success? && command.value.Some? && r.outcome.Kernel?
      then [Record(command.value.value, r.outcome.outcome)] else []
  }

  function EffectsOf(records: seq<AuthenticatedRecord>): seq<Record> {
    if records == [] then [] else EffectsOf(records[..|records| - 1]) + EffectOf(records[|records| - 1])
  }

  /**
   * A signed record carries a valid signature by its actor's bound key, was in its window, and used the actor's next
   * sequence.
   */
  predicate Authentic(p: Protocol, s: AuthState, k: nat)
    requires k < |s.records|
  {
    s.records[k].evidence.Signed? ==>
      var (envelope, context) := (s.records[k].evidence.envelope, s.records[k].evidence.context);
      var intent := envelope.intent;
      && intent.genesisHash == s.genesisHash
      && intent.actor in s.keys
      && EncodePrefixed(INTENT_DOMAIN, p.format.intent, intent).Success?
      && p.verify(s.keys[intent.actor], EncodePrefixed(INTENT_DOMAIN, p.format.intent, intent).value,
                  envelope.signature)
      && intent.sequence == AcceptedFrom(s.records[..k], intent.actor)
      && intent.notBeforeSlot <= context.nowSlot <= intent.expiresSlot
      && intent.expiresSlot - intent.notBeforeSlot <= 10_000
  }

  predicate Chained(p: Protocol, s: AuthState, k: nat)
    requires k < |s.records|
  {
    && s.records[k].index == k
    && s.records[k].previousHash == HashAt(s, k)
    && s.records[k].hash == p.sha256(Link(p, s, k + 1))
  }

  ghost predicate AuthInv(p: Protocol, s: AuthState) {
    && s.keys.Keys == s.sequences.Keys
    && (forall a :: a in s.sequences ==> s.sequences[a] == AcceptedFrom(s.records, a))
    && (forall k :: 0 <= k < |s.records| ==> Authentic(p, s, k))
    && (forall k :: 0 <= k < |s.records| ==> Chained(p, s, k))
    && s.genesisHash == p.sha256(Link(p, s, 0))
    && s.head == HashAt(s, |s.records|)
    && RoomRuns.Reachable(s.room)
    && s.room.records == EffectsOf(s.records)
    && s.room.currentSlot <= s.currentSlot
  }

  lemma FreshInv(p: Protocol, genesis: Genesis)
    requires New(p, genesis).Success?
    ensures AuthInv(p, New(p, genesis).value)
  {
    var s := New(p, genesis).value;
    assert s.room == RoomRuns.After(RoomKernel.NewRoom(s.room.id, s.room.administrator), []);
  }

  lemma AuthenticFacts(p: Protocol, genesisHash: bytes32, keys: map<Actor, bytes32>, bytes: seq<u8>)
    requires Authenticate(p, genesisHash, keys, bytes).Success?
    ensures var envelope := Authenticate(p, genesisHash, keys, bytes).value;
            && Decode(p.format.envelope, bytes) == Success(envelope)
            && envelope.intent.genesisHash == genesisHash
            && envelope.intent.actor in keys
            && EncodePrefixed(INTENT_DOMAIN, p.format.intent, envelope.intent).Success?
            && p.verify(keys[envelope.intent.actor],
                        EncodePrefixed(INTENT_DOMAIN, p.format.intent, envelope.intent).value,
                        envelope.signature)
  {
    hide Decode, EncodePrefixed;
  }

  /** The old records keep their standing when one is appended. */
  lemma OldRecordsStand(p: Protocol, s: AuthState, s': AuthState, r: AuthenticatedRecord)
    requires AuthInv(p, s) && Appended(p, s, s', r)
    ensures forall k :: 0 <= k < |s.records| ==> Authentic(p, s', k) && Chained(p, s', k)
    ensures Chained(p, s', |s.records|) && s'.genesisHash == p.sha256(Link(p, s', 0))
        && s'.head == HashAt(s', |s'.records|)
  {
    hide AcceptedFrom, EffectsOf, RoomRuns.Reachable, RoomRuns.After, EncodePrefixed, Prefixed;
    forall k | 0 <= k < |s.records| ensures Authentic(p, s', k) && Chained(p, s', k) {
      assert Authentic(p, s, k) && Chained(p, s, k);
      assert s'.records[..k] == s.records[..k];
    }
  }

  lemma RoomFollows(s: AuthState, s': AuthState, command: Option<Command>, r: AuthenticatedRecord)
    requires RoomRuns.Reachable(s.room) && Ran(s.room, s'.room, command, r.outcome)
    ensures RoomRuns.Reachable(s'.room)
    ensures s'.room.records
         == s.room.records + if command.None? then [] else [Record(command.value, r.outcome.outcome)]
  {
    hide RoomKernel.Execute, RoomRuns.Reachable;
    if command.Some? {
      RoomRuns.ReachableStep(s.room, command.value);
      RoomRuns.IdentityKept(s.room, command.value);
    }
  }

  lemma RoomClock(s: RoomState, c: Command)
    requires RoomKernel.Execute(s, c).Success?
    ensures RoomKernel.Execute(s, c).value.0.currentSlot
         == if RoomKernel.SlotOf(c).Some? then RoomKernel.SlotOf(c).value else s.currentSlot
  {
    hide RoomKernel.Reconciles, RoomKernel.AdmitOpen, RoomKernel.AdmitClose, RoomKernel.OpenPosition,
         RoomKernel.SettlePosition, ValidatePolicy, ValidateUnderwriting, ValidateMarket;
    var s1 := RoomKernel.WithSlot(s, c);
    match c
    case Open(actor, intent, observation, now) =>
      RoomInvariant.OpenShape(s1, RoomKernel.AdmitOpen(s1, actor, intent, observation, now).value);
    case Close(actor, intent, observation, now) =>
      RoomInvariant.SettleShape(s1, RoomKernel.AdmitClose(s1, actor, intent, observation, now).value, observation, now,
                                true);
    case SettleMatured(position, now) =>
      RoomInvariant.SettleShape(s1, s1.positions[position], s1.terminal[KeyOf(s1.positions[position])], now, false);
    case _ =>
  }

  /** A command for the kernel runs at the slot the host supplied, or at none. */
  lemma CommandSlot(intent: Intent, context: ExecutionContext)
    requires CommandFor(intent, context).Success? && CommandFor(intent, context).value.Some?
    ensures var slot := RoomKernel.SlotOf(CommandFor(intent, context).value.value);
            slot.Some? ==> slot.value == context.nowSlot
  {
  }

  lemma EffectsUnfold(records: seq<AuthenticatedRecord>, r: AuthenticatedRecord)
    ensures EffectsOf(records + [r]) == EffectsOf(records) + EffectOf(r)
  {
    assert (records + [r])[..|records|] == records;
  }

  lemma SubmitKeeps(p: Protocol, s: AuthState, bytes: seq<u8>, context: ExecutionContext)
    requires AuthInv(p, s) && Execute(p, s, bytes, context).Success?
    ensures AuthInv(p, Execute(p, s, bytes, context).value.0)
  {
    hide Execute, Admit, Authenticate, CommandFor, RoomKernel.Execute, RoomRuns.Reachable, AcceptedFrom, EffectsOf,
         EncodePrefixed, CheckRevision, Chained, Link;
    SubmitMoves(p, s, bytes, context);
    AdmitFacts(p, s, bytes, context);
    AuthenticFacts(p, s.genesisHash, s.keys, bytes);
    var a := Admit(p, s, bytes, context).value;
    var s' := Execute(p, s, bytes, context).value.0;
    var r := s'.records[|s.records|];
    OldRecordsStand(p, s, s', r);
    RoomFollows(s, s', a.command, r);
    EffectsUnfold(s.records, r);
    forall actor | actor in s'.sequences ensures s'.sequences[actor] == AcceptedFrom(s'.records, actor) {
      AcceptedUnfolds(s.records, r, actor);
    }
    assert s'.records[..|s.records|] == s.records;
    if a.command.Some? {
      RoomClock(s.room, a.command.value);
      CommandSlot(a.envelope.intent, context);
    }
  }

  lemma SettleKeeps(p: Protocol, s: AuthState, position: PositionId, now: u64)
    requires AuthInv(p, s) && SettlePosition(p, s, position, now).Success?
    ensures AuthInv(p, SettlePosition(p, s, position, now).value.0)
  {
    hide SettlePosition, RoomKernel.Execute, RoomRuns.Reachable, AcceptedFrom, EffectsOf, EncodePrefixed, Chained,
         Link;
    SettleMoves(p, s, position, now);
    var s' := SettlePosition(p, s, position, now).value.0;
    var r := s'.records[|s.records|];
    OldRecordsStand(p, s, s', r);
    RoomFollows(s, s', Some(SettleMatured(position, now)), r);
    EffectsUnfold(s.records, r);
    forall actor | actor in s'.sequences ensures s'.sequences[actor] == AcceptedFrom(s'.records, actor) {
      AcceptedUnfolds(s.records, r, actor);
    }
    RoomClock(s.room, SettleMatured(position, now));
  }

  /**
   * Every reachable gateway keeps the whole invariant: sequences count envelopes, records chain, and the room is
   * exactly what was signed.
   */
  lemma {:induction false} AfterInv(p: Protocol, s: AuthState, requests: seq<Request>)
    requires AuthInv(p, s)
    ensures AuthInv(p, After(p, s, requests))
  {
    hide AuthInv, Execute, SettlePosition;
    if requests != [] {
      var init := requests[..|requests| - 1];
      AfterInv(p, s, init);
      var before := After(p, s, init);
      match requests[|requests| - 1]
      case Submit(bytes, context) =>
        if Execute(p, before, bytes, context).Success? {
          SubmitKeeps(p, before, bytes, context);
        }
      case Settle(position, now) =>
        if SettlePosition(p, before, position, now).Success? {
          SettleKeeps(p, before, position, now);
        }
    }
  }

  ghost predicate Reachable(p: Protocol, s: AuthState) {
    New(p, s.genesis).Success? && exists requests: seq<Request> :: s == After(p, New(p, s.genesis).value, requests)
  }

  lemma ReachableInv(p: Protocol, s: AuthState)
    requires Reachable(p, s)
    ensures AuthInv(p, s)
  {
    hide AuthInv, New, After;
    var requests :| s == After(p, New(p, s.genesis).value, requests);
    FreshInv(p, s.genesis);
    AfterInv(p, New(p, s.genesis).value, requests);
  }

  /**
   * Each actor's next sequence is the number of its envelopes ever accepted, and no two accepted envelopes share one.
   */
  lemma SequencesCountEnvelopes(p: Protocol, s: AuthState, actor: Actor)
    requires Reachable(p, s) && actor in s.keys
    ensures actor in s.sequences && s.sequences[actor] == AcceptedFrom(s.records, actor)
    ensures forall j, k ::
              0 <= j < k < |s.records| && SignedBy(s.records[j]) == SignedBy(s.records[k]) == Some(actor) ==>
              s.records[j].evidence.envelope.intent.sequence < s.records[k].evidence.envelope.intent.sequence
  {
    hide Reachable, RoomRuns.Reachable, EffectsOf, Chained, EncodePrefixed, AcceptedFrom;
    ReachableInv(p, s);
    forall j, k | 0 <= j < k < |s.records| && SignedBy(s.records[j]) == SignedBy(s.records[k]) == Some(actor)
      ensures s.records[j].evidence.envelope.intent.sequence < s.records[k].evidence.envelope.intent.sequence
    {
      assert Authentic(p, s, j) && Authentic(p, s, k);
      AcceptedGrows(s.records, j, k, actor);
    }
  }

  /** A valid signature over the envelope's intent, for this genesis, by the key bound to its actor. */
  predicate SignedForGenesis(p: Protocol, s: AuthState, envelope: SignedEnvelope) {
    && envelope.intent.genesisHash == s.genesisHash
    && envelope.intent.actor in s.keys
    && EncodePrefixed(INTENT_DOMAIN, p.format.intent, envelope.intent).Success?
    && p.verify(s.keys[envelope.intent.actor], EncodePrefixed(INTENT_DOMAIN, p.format.intent, envelope.intent).value,
                envelope.signature)
  }

  /** Nothing happens in the room except what a bound key signed for this genesis, or a matured settlement. */
  lemma OnlySignedEffects(p: Protocol, s: AuthState)
    requires Reachable(p, s)
    ensures s.room.records == EffectsOf(s.records)
    ensures forall k :: 0 <= k < |s.records| && s.records[k].evidence.Signed? ==>
              SignedForGenesis(p, s, s.records[k].evidence.envelope)
  {
    hide Reachable, RoomRuns.Reachable, EffectsOf, Chained, EncodePrefixed, AcceptedFrom;
    ReachableInv(p, s);
    forall k | 0 <= k < |s.records| && s.records[k].evidence.Signed?
      ensures SignedForGenesis(p, s, s.records[k].evidence.envelope)
    {
      assert Authentic(p, s, k);
    }
  }

  /** The signed action a kernel command came from; matured settlements come from none. */
  function ActionFrom(c: Command): Option<Action> {
    match c
    case RegisterMarket(_, market) => Some(ActRegisterMarket(market))
    case AddCell(_, cell, policy) => Some(ActAddCell(cell, policy))
    case ChangeCellPolicy(_, cell, revision, policy) => Some(ActChangeCellPolicy(cell, revision, policy))
    case AddMember(_, member, delegate, policy) => Some(ActAddMember(member, delegate, policy))
    case ChangePolicy(_, member, revision, delegate, policy) =>
      Some(ActChangePolicy(member, revision, delegate, policy))
    case Contribute(_, member, amount) => Some(ActContribute(member, amount))
    case FundCell(_, cell, amount) => Some(ActFundCell(cell, amount))
    case Withdraw(_, member, amount) => Some(ActWithdraw(member, amount))
    case WithdrawCell(_, cell, amount) => Some(ActWithdrawCell(cell, amount))
    case Open(_, intent, _, _) => Some(ActOpen(intent))
    case Close(_, intent, _, _) => Some(ActClose(intent))
    case RecordTerminalObservation(_, position, observation, _) =>
      Some(ActRecordTerminalObservation(position, observation))
    case SettleMatured(_, _) => None
  }

  /** A command says exactly what its signer signed, as its signer, with the host's clock and live price. */
  lemma CommandSaysWhatWasSigned(intent: Intent, context: ExecutionContext)
    requires CommandFor(intent, context).Success?
    ensures var command := CommandFor(intent, context).value;
            && (command.None? <==> intent.action == ActCancelPending)
            && (command.Some? ==>
                  && ActionFrom(command.value) == Some(intent.action)
                  && command.value.actor == intent.actor
                  && (RoomKernel.SlotOf(command.value).Some? ==>
                      RoomKernel.SlotOf(command.value) == Some(context.nowSlot))
                  && (command.value.Open? || command.value.Close? ==>
                      context.observation == Some(command.value.observation)))
  {
  }

  // ---- Settlement liveness ----

  lemma AppendSettlement(p: Protocol, s: AuthState, position: PositionId, now: u64, outcome: Outcome)
    requires p.format == Version1() && outcome.Closed? && |s.records| < U64_LIMIT
    ensures Append(p, s, Matured(position, now), Kernel(outcome)).Success?
    ensures Append(p, s, Matured(position, now), Kernel(outcome)).value.0.room == s.room
  {
    hide IntentCodec, EnvelopeCodec, GenesisCodec, BodyCodec, RecordCodec, Encode;
    SettlementFits(RecordFor(p, s, Matured(position, now), Kernel(outcome)));
  }

  /**
   * Once the terminal price of an open position is recorded, anyone can settle it through the gateway at
   * any later slot: neither the kernel nor the record's size can refuse.
   */
  lemma MaturedAlwaysSettles(p: Protocol, s: AuthState, position: PositionId, now: u64)
    requires p.format == Version1() && Reachable(p, s) && |s.records| < U64_LIMIT && position in s.room.positions
    requires var receipt := s.room.positions[position];
             KeyOf(receipt) in s.room.terminal && receipt.intent.maturitySlot <= now && s.currentSlot <= now
    ensures SettlePosition(p, s, position, now).Success?
    ensures position !in SettlePosition(p, s, position, now).value.0.room.positions
  {
    hide Version1, Reachable, RoomKernel.Execute, RoomRuns.Reachable, Append, AcceptedFrom, EffectsOf, Authentic,
         Chained;
    ReachableInv(p, s);
    RoomRuns.MaturedAlwaysSettles(s.room, position, now);
    var (room, outcome) := RoomKernel.Execute(s.room, SettleMatured(position, now)).value;
    AppendSettlement(p, s.(room := room, currentSlot := now), position, now, outcome);
  }

  // ---- Replay ----

  lemma EnvelopeSurvivesReencoding(p: Protocol, s: AuthState, bytes: seq<u8>, context: ExecutionContext)
    requires CanonicalFormat(p.format) && Execute(p, s, bytes, context).Success?
    ensures Redo(p, s, Execute(p, s, bytes, context).value.1.evidence) == Execute(p, s, bytes, context)
  {
    hide Execute, Authenticate, CommandFor, CheckRevision, Canonical, Encode, Decode;
    SubmitMoves(p, s, bytes, context);
    AdmitFacts(p, s, bytes, context);
    AuthenticFacts(p, s.genesisHash, s.keys, bytes);
    DecodedIsCanonical(p.format.envelope, bytes);
  }

  lemma RebuildStep(p: Protocol, genesis: Genesis, s: AuthState, s': AuthState, r: AuthenticatedRecord)
    requires Rebuild(p, genesis, s.records) == Success(s)
    requires Redo(p, s, r.evidence) == Success((s', r)) && s'.records == s.records + [r]
    ensures Rebuild(p, genesis, s'.records) == Success(s')
  {
    hide Redo;
    assert s'.records[..|s'.records| - 1] == s.records;
  }

  lemma {:induction false} RebuildAfter(p: Protocol, genesis: Genesis, requests: seq<Request>)
    requires CanonicalFormat(p.format) && New(p, genesis).Success?
    ensures var s := After(p, New(p, genesis).value, requests); Rebuild(p, genesis, s.records) == Success(s)
  {
    hide CanonicalFormat, Execute, SettlePosition, Rebuild;
    if requests == [] {
      RebuildNothing(p, genesis);
    } else {
      var init := requests[..|requests| - 1];
      RebuildAfter(p, genesis, init);
      var before := After(p, New(p, genesis).value, init);
      match requests[|requests| - 1]
      case Submit(bytes, context) =>
        var done := Execute(p, before, bytes, context);
        if done.Success? {
          SubmitMoves(p, before, bytes, context);
          EnvelopeSurvivesReencoding(p, before, bytes, context);
          RebuildStep(p, genesis, before, done.value.0, done.value.1);
        }
      case Settle(position, now) =>
        var done := SettlePosition(p, before, position, now);
        if done.Success? {
          SettleMoves(p, before, position, now);
          RebuildStep(p, genesis, before, done.value.0, done.value.1);
        }
    }
  }

  lemma RebuildNothing(p: Protocol, genesis: Genesis)
    requires New(p, genesis).Success?
    ensures New(p, genesis).value.records == [] && Rebuild(p, genesis, []) == New(p, genesis)
  {
  }

  /** Every reachable gateway is rebuilt exactly from its own records and head. */
  lemma ReplayComplete(p: Protocol, s: AuthState)
    requires CanonicalFormat(p.format) && Reachable(p, s)
    ensures Replay(p, s.genesis, s.records, s.head) == Success(s)
  {
    hide CanonicalFormat, New, After, Rebuild;
    var requests :| s == After(p, New(p, s.genesis).value, requests);
    RebuildAfter(p, s.genesis, requests);
  }

  /** The requests a transcript claims were made. */
  function RequestOf(p: Protocol, evidence: Evidence): Request {
    match evidence
    case Signed(envelope, context) => Submit(p.format.envelope.enc(envelope), context)
    case Matured(position, now) => Settle(position, now)
  }

  lemma RedoIsStep(p: Protocol, s: AuthState, evidence: Evidence)
    requires Redo(p, s, evidence).Success?
    ensures Step(p, s, RequestOf(p, evidence)) == Redo(p, s, evidence)
  {
    hide Execute, SettlePosition;
  }

  lemma StepAppends(p: Protocol, s: AuthState, request: Request)
    requires Step(p, s, request).Success?
    ensures Appended(p, s, Step(p, s, request).value.0, Step(p, s, request).value.1)
  {
    hide Execute, SettlePosition;
    match request
    case Submit(bytes, context) => SubmitMoves(p, s, bytes, context);
    case Settle(position, now) => SettleMoves(p, s, position, now);
  }

  lemma AfterMore(p: Protocol, s: AuthState, requests: seq<Request>, request: Request)
    requires Step(p, After(p, s, requests), request).Success?
    ensures After(p, s, requests + [request]) == Step(p, After(p, s, requests), request).value.0
  {
    hide Step;
    assert (requests + [request])[..|requests|] == requests;
  }

  lemma {:induction false} RebuildReaches(p: Protocol, genesis: Genesis, records: seq<AuthenticatedRecord>)
    returns (requests: seq<Request>)
    requires Rebuild(p, genesis, records).Success?
    ensures New(p, genesis).Success?
    ensures Rebuild(p, genesis, records).value == After(p, New(p, genesis).value, requests)
    ensures Rebuild(p, genesis, records).value.records == records
  {
    hide Step, Redo;
    if records == [] {
      RebuildNothing(p, genesis);
      requests := [];
    } else {
      var (init, last) := (records[..|records| - 1], records[|records| - 1]);
      requests := RebuildReaches(p, genesis, init);
      var before := Rebuild(p, genesis, init).value;
      var request := RequestOf(p, last.evidence);
      RedoIsStep(p, before, last.evidence);
      StepAppends(p, before, request);
      AfterMore(p, New(p, genesis).value, requests, request);
      requests := requests + [request];
      assert records == init + [last];
    }
  }

  /** An accepted transcript yields a reachable gateway whose genesis, records and head are the ones supplied. */
  lemma ReplaySound(p: Protocol, genesis: Genesis, records: seq<AuthenticatedRecord>, expectedHead: bytes32)
    requires Replay(p, genesis, records, expectedHead).Success?
    ensures var s := Replay(p, genesis, records, expectedHead).value;
            s.genesis == genesis && s.records == records && s.head == expectedHead && Reachable(p, s)
  {
    hide Rebuild, After, New;
    var requests := RebuildReaches(p, genesis, records);
    NewKeepsGenesis(p, genesis);
    AfterIsLater(p, New(p, genesis).value, requests);
  }

  lemma NewKeepsGenesis(p: Protocol, genesis: Genesis)
    requires New(p, genesis).Success?
    ensures New(p, genesis).value.genesis == genesis
  {
  }

  // ---- What a head hash pins down ----

  /** Two different byte strings with one hash, found among what two histories hashed. */
  predicate Collides(p: Protocol, s: AuthState, t: AuthState, i: nat, j: nat)
    requires i <= |s.records| && j <= |t.records|
  {
    Link(p, s, i) != Link(p, t, j) && p.sha256(Link(p, s, i)) == p.sha256(Link(p, t, j))
  }

  /**
   * Equal heads are equal histories: if two reachable gateways' hash chains meet, then either the chains
   * are the same all the way down, genesis included, or they exhibit a SHA-256 collision.
   */
  lemma {:induction false} HeadCommitsToHistory(p: Protocol, s: AuthState, t: AuthState, m: nat, n: nat)
    returns (i: nat, j: nat)
    requires CanonicalFormat(p.format) && AuthInv(p, s) && AuthInv(p, t)
    requires m <= |s.records| && n <= |t.records| && HashAt(s, m) == HashAt(t, n)
    ensures i <= m && j <= n
    ensures Collides(p, s, t, i, j) || (s.genesis == t.genesis && s.records[..m] == t.records[..n])
    decreases m
  {
    hide CanonicalFormat, Prefixed, EffectsOf, AcceptedFrom, RoomRuns.Reachable, Authentic;
    i, j := m, n;
    if m > 0 { assert Chained(p, s, m - 1); }
    if n > 0 { assert Chained(p, t, n - 1); }
    if Link(p, s, m) == Link(p, t, n) {
      SameLinkSameKind(p, s, t, m, n);
      if m > 0 {
        i, j := HeadCommitsToHistory(p, s, t, m - 1, n - 1);
        assert s.records[..m] == s.records[..m - 1] + [s.records[m - 1]];
        assert t.records[..n] == t.records[..n - 1] + [t.records[n - 1]];
      }
    }
  }

  lemma SameLinkSameKind(p: Protocol, s: AuthState, t: AuthState, m: nat, n: nat)
    requires CanonicalFormat(p.format)
    requires m <= |s.records| && n <= |t.records| && Link(p, s, m) == Link(p, t, n)
    ensures m == 0 <==> n == 0
    ensures m == 0 ==> s.genesis == t.genesis
    ensures m > 0 ==> BodyOf(s.records[m - 1]) == BodyOf(t.records[n - 1])
  {
    hide Prefixed, Canonical;
    if m == 0 && n == 0 {
      var (x, y) := (p.format.genesis.enc(s.genesis), p.format.genesis.enc(t.genesis));
      PrefixedInjective(GENESIS_DOMAIN, x, y);
      EncodingInjective(p.format.genesis, s.genesis, t.genesis);
    } else if m > 0 && n > 0 {
      var (x, y) := (BodyOf(s.records[m - 1]), BodyOf(t.records[n - 1]));
      PrefixedInjective(RECEIPT_DOMAIN, p.format.body.enc(x), p.format.body.enc(y));
      EncodingInjective(p.format.body, x, y);
    } else if m == 0 {
      DomainsNeverCollide([], p.format.genesis.enc(s.genesis), p.format.body.enc(BodyOf(t.records[n - 1])));
    } else {
      DomainsNeverCollide([], p.format.genesis.enc(t.genesis), p.format.body.enc(BodyOf(s.records[m - 1])));
    }
  }
}

/** The gateway as the object its host holds: requests run on a clone, append their record, then commit. */
module GatewayObject {
  import opened Numbers
  import opened RoomModel
  import RoomKernel
  import RoomInvariant
  import opened RoomObject
  import opened Codec
  import opened Wire
  import opened Gateway

  lemma KeysUnfold(principals: seq<PrincipalBinding>, i: nat)
    requires i < |principals|
    ensures KeysOf(principals[..i + 1]) == KeysOf(principals[..i])[principals[i].actor := principals[i].publicKey]
  {
    assert principals[..i + 1][..i] == principals[..i];
  }

  lemma NoBindings(p: Protocol)
    ensures ValidBindings(p, []) && KeysOf([]) == map[]
  {
  }

  lemma BindingStep(p: Protocol, principals: seq<PrincipalBinding>, i: nat)
    requires i < |principals|
    ensures ValidBindings(p, principals[..i + 1]) <==>
              && ValidBindings(p, principals[..i])
              && (i > 0 ==> ActorLess(principals[i - 1].actor, principals[i].actor))
              && (forall j :: 0 <= j < i ==> principals[j].publicKey != principals[i].publicKey)
              && p.acceptable(principals[i].publicKey)
  {
    hide ActorLess;
    assert principals[..i + 1][..i] == principals[..i];
  }

  lemma {:induction false} BindingsFail(p: Protocol, principals: seq<PrincipalBinding>, i: nat)
    requires i <= |principals| && !ValidBindings(p, principals[..i])
    ensures !ValidBindings(p, principals)
    decreases |principals| - i
  {
    hide ValidBindings;
    if i == |principals| {
      assert principals[..i] == principals;
    } else {
      BindingStep(p, principals, i);
      BindingsFail(p, principals, i + 1);
    }
  }

  /** A transcript that stops rebuilding at some record is refused as a whole, with that record's error. */
  lemma {:induction false} RebuildStops(p: Protocol, genesis: Genesis, records: seq<AuthenticatedRecord>, i: nat)
    requires i <= |records| && Rebuild(p, genesis, records[..i]).Failure?
    ensures Rebuild(p, genesis, records) == Failure(Rebuild(p, genesis, records[..i]).error)
    decreases |records| - i
  {
    hide Redo, New;
    if i == |records| {
      assert records[..i] == records;
    } else {
      assert records[..i + 1][..i] == records[..i];
      RebuildStops(p, genesis, records, i + 1);
    }
  }

  class AuthenticatedRoom {
    const protocol: Protocol
    const genesis: Genesis
    const genesisHash: bytes32
    const keys: map<Actor, bytes32>
    var sequences: map<Actor, u64>
    var room: Room
    var currentSlot: u64
    var records: seq<AuthenticatedRecord>
    var head: bytes32

    function View(): AuthState
      reads this, room
    {
      AuthState(genesis, genesisHash, keys, sequences, room.View(), currentSlot, records, head)
    }

    ghost predicate Valid()
      reads this, room
    {
      room.Valid()
    }

    constructor Bound(protocol: Protocol, genesis: Genesis, genesisHash: bytes32, keys: map<Actor, bytes32>)
      requires keys == KeysOf(genesis.principals)
      ensures Valid() && fresh(room) && this.protocol == protocol && View() == Fresh(genesis, genesisHash)
    {
      this.protocol, this.genesis, this.genesisHash, this.keys := protocol, genesis, genesisHash, keys;
      sequences, currentSlot, records, head := Zeroed(keys), 0, [], genesisHash;
      room := new Room(genesis.domain.room, genesis.administrator);
    }

    constructor Clone(of: AuthenticatedRoom)
      ensures fresh(room) && protocol == of.protocol && View() == of.View()
    {
      protocol, genesis, genesisHash, keys := of.protocol, of.genesis, of.genesisHash, of.keys;
      sequences, currentSlot, records, head := of.sequences, of.currentSlot, of.records, of.head;
      room := new Room.Clone(of.room);
    }

    /** Bindings must be strictly ordered, with distinct acceptable keys. */
    static method Bind(protocol: Protocol, principals: seq<PrincipalBinding>)
      returns (r: Result<map<Actor, bytes32>, AuthError>)
      ensures r == if ValidBindings(protocol, principals) then Success(KeysOf(principals)) else Failure(InvalidGenesis)
    {
      hide ActorLess, ValidBindings, KeysOf;
      assert principals[..0] == [];
      NoBindings(protocol);
      var keys: map<Actor, bytes32> := map[];
      var publicKeys: set<bytes32> := {};
      var previous: Option<Actor> := None;
      for i := 0 to |principals|
        invariant keys == KeysOf(principals[..i])
        invariant forall key :: key in publicKeys <==> exists j :: 0 <= j < i && principals[j].publicKey == key
        invariant previous == if i == 0 then None else Some(principals[i - 1].actor)
        invariant ValidBindings(protocol, principals[..i])
      {
        var binding := principals[i];
        BindingStep(protocol, principals, i);
        if (previous.Some? && !ActorLess(previous.value, binding.actor)) || binding.publicKey in publicKeys
           || !protocol.acceptable(binding.publicKey) {
          BindingsFail(protocol, principals, i + 1);
          return Failure(InvalidGenesis);
        }
        KeysUnfold(principals, i);
        keys := keys[binding.actor := binding.publicKey];
        publicKeys := publicKeys + {binding.publicKey};
        previous := Some(binding.actor);
      }
      assert principals[..|principals|] == principals;
      return Success(keys);
    }

    static method New(protocol: Protocol, genesis: Genesis) returns (r: Result<AuthenticatedRoom, AuthError>)
      ensures var spec := Gateway.New(protocol, genesis);
              if spec.Failure? then r == Failure(spec.error)
              else r.Success? && fresh(r.value) && fresh(r.value.room) && r.value.Valid()
                   && r.value.protocol == protocol && r.value.View() == spec.value
    {
      hide ValidBindings, KeysOf, Fresh, EncodePrefixed, RoomInvariant.Inv;
      if genesis.principals == [] || |genesis.principals| > MAX_PRINCIPALS
         || genesis.domain.network == NO_DOMAIN || genesis.domain.deployment == NO_DOMAIN {
        return Failure(InvalidGenesis);
      }
      var keys :- Bind(protocol, genesis.principals);
      :- Need(Owner(genesis.administrator) in keys, InvalidGenesis);
      var committed :- FromWire(EncodePrefixed(GENESIS_DOMAIN, protocol.format.genesis, genesis));
      var gateway := new AuthenticatedRoom.Bound(protocol, genesis, protocol.sha256(committed), keys);
      return Success(gateway);
    }

    /** Any refusal leaves the gateway exactly as it was. */
    method Execute(bytes: seq<u8>, context: ExecutionContext) returns (r: Result<AuthenticatedRecord, AuthError>)
      requires Valid()
      modifies this
      ensures Valid() && (room == old(room) || fresh(room))
      ensures var spec := Gateway.Execute(protocol, old(View()), bytes, context);
              if spec.Failure? then r == Failure(spec.error) && View() == old(View())
              else r == Success(spec.value.1) && View() == spec.value.0
    {
      hide RoomKernel.Execute, RoomInvariant.Inv, Gateway.Append, Decode, CheckTime, CheckAction, CommandFor,
           EncodePrefixed;
      var envelope :- FromWire(Decode(protocol.format.envelope, bytes));
      var intent := envelope.intent;
      :- Need(intent.genesisHash == genesisHash, WrongDomain);
      :- Need(intent.actor in keys, UnknownPrincipal);
      var signed :- FromWire(EncodePrefixed(INTENT_DOMAIN, protocol.format.intent, intent));
      :- Need(protocol.verify(keys[intent.actor], signed, envelope.signature), InvalidSignature);
      :- Need(intent.actor in sequences && sequences[intent.actor] == intent.sequence, WrongSequence);
      :- Need(intent.sequence + 1 < U64_LIMIT, AuthError.Arithmetic);
      var nextSequence: u64 := intent.sequence + 1;
      :- CheckTime(View(), intent, context.nowSlot);
      :- CheckAction(View(), intent);
      var command :- CommandFor(intent, context);
      assert Admit(protocol, View(), bytes, context) == Success(Admitted(envelope, nextSequence, command));
      var planned := new AuthenticatedRoom.Clone(this);
      var outcome := NonceAdvanced(intent.actor, nextSequence);
      if command.Some? {
        var ran := planned.room.Execute(command.value);
        if ran.Failure? {
          return Failure(KernelFault(ran.error));
        }
        outcome := AuthOutcome.Kernel(ran.value);
      }
      planned.sequences := planned.sequences[intent.actor := nextSequence];
      planned.currentSlot := context.nowSlot;
      var record :- planned.Append(Signed(envelope, context), outcome);
      Commit(planned);
      return Success(record);
    }

    /** Anyone may ask; the price and the beneficiary are the stored ones. */
    method SettleMatured(position: PositionId, now: u64) returns (r: Result<AuthenticatedRecord, AuthError>)
      requires Valid()
      modifies this
      ensures Valid() && (room == old(room) || fresh(room))
      ensures var spec := Gateway.SettlePosition(protocol, old(View()), position, now);
              if spec.Failure? then r == Failure(spec.error) && View() == old(View())
              else r == Success(spec.value.1) && View() == spec.value.0
    {
      hide RoomKernel.Execute, RoomInvariant.Inv, Gateway.Append;
      :- Need(currentSlot <= now, AuthError.InvalidTime);
      var planned := new AuthenticatedRoom.Clone(this);
      var ran := planned.room.Execute(Command.SettleMatured(position, now));
      if ran.Failure? {
        return Failure(KernelFault(ran.error));
      }
      planned.currentSlot := now;
      var record :- planned.Append(Matured(position, now), AuthOutcome.Kernel(ran.value));
      Commit(planned);
      return Success(record);
    }

    method Append(evidence: Evidence, outcome: AuthOutcome) returns (r: Result<AuthenticatedRecord, AuthError>)
      modifies this`records, this`head
      ensures var spec := Gateway.Append(protocol, old(View()), evidence, outcome);
              if spec.Failure? then r == Failure(spec.error) else r == Success(spec.value.1) && View() == spec.value.0
    {
      hide Encode;
      :- Need(|records| < U64_LIMIT, AuthError.Arithmetic);
      var index: u64 := |records|;
      var content: Body := (index, (head, (evidence, outcome)));
      var body :- FromWire(Encode(protocol.format.body, content));
      EncodedBytes(protocol.format.body, content);
      var hash := protocol.sha256(ReceiptPreimage(body));
      var record := AuthenticatedRecord(index, head, evidence, outcome, hash);
      var _ :- FromWire(Encode(protocol.format.record, record));
      records := records + [record];
      head := hash;
      return Success(record);
    }

    method Commit(planned: AuthenticatedRoom)
      requires planned.protocol == protocol && planned.genesis == genesis && planned.genesisHash == genesisHash
          && planned.keys == keys
      modifies this
      ensures room == old(planned.room) && View() == old(planned.View())
    {
      sequences, room, currentSlot, records, head :=
        planned.sequences, planned.room, planned.currentSlot, planned.records, planned.head;
    }

    /** Re-authenticate and re-execute a transcript, comparing every record and the final head. */
    static method Replay(protocol: Protocol, genesis: Genesis, records: seq<AuthenticatedRecord>, expectedHead: bytes32)
      returns (r: Result<AuthenticatedRoom, AuthError>)
      ensures var spec := Gateway.Replay(protocol, genesis, records, expectedHead);
              if spec.Failure? then r == Failure(spec.error)
              else r.Success? && fresh(r.value) && r.value.Valid() && r.value.View() == spec.value
    {
      hide RoomInvariant.Inv, Gateway.New, Gateway.Execute, Gateway.SettlePosition, Encode;
      var rebuilt := AuthenticatedRoom.New(protocol, genesis);
      assert records[..0] == [];
      if rebuilt.Failure? {
        RebuildStops(protocol, genesis, records, 0);
        return rebuilt;
      }
      var gateway := rebuilt.value;
      for i := 0 to |records|
        invariant fresh(gateway) && fresh(gateway.room) && gateway.Valid() && gateway.protocol == protocol
        invariant Rebuild(protocol, genesis, records[..i]) == Success(gateway.View())
      {
        assert records[..i + 1][..i] == records[..i];
        ghost var before := gateway.View();
        var generated := gateway.Redo(records[i].evidence);
        if generated.Failure? || generated.value != records[i] {
          RebuildStops(protocol, genesis, records, i + 1);
          return if generated.Failure? then Failure(generated.error) else Failure(TranscriptMismatch);
        }
      }
      assert records[..|records|] == records;
      :- Need(gateway.head == expectedHead, TranscriptMismatch);
      return Success(gateway);
    }

    method Redo(evidence: Evidence) returns (r: Result<AuthenticatedRecord, AuthError>)
      requires Valid()
      modifies this
      ensures Valid() && (room == old(room) || fresh(room))
      ensures var spec := Gateway.Redo(protocol, old(View()), evidence);
              if spec.Failure? then r == Failure(spec.error) && View() == old(View())
              else r == Success(spec.value.1) && View() == spec.value.0
    {
      hide RoomInvariant.Inv, Gateway.Execute, Gateway.SettlePosition, Encode;
      match evidence
      case Signed(envelope, context) =>
        var bytes :- FromWire(Encode(protocol.format.envelope, envelope));
        r := Execute(bytes, context);
      case Matured(position, now) =>
        r := SettleMatured(position, now);
    }
  }

  lemma EncodedBytes<T>(c: Codec<T>, value: T)
    requires Encode(c, value).Success?
    ensures Encode(c, value).value == c.enc(value)
  {
  }
}

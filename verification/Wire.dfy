/** The gateway's messages and their canonical encodings, protocol version 1. */
module Wire {
  import opened Numbers
  import opened Position
  import opened RoomModel
  import opened Codec

  const MAX_WIRE_BYTES: int := 16_384
  const WIRE_VERSION: u16 := 1

  datatype Domain = Domain(network: bytes32, deployment: bytes32, room: RoomId)
  datatype PrincipalBinding = PrincipalBinding(actor: Actor, publicKey: bytes32)
  datatype Genesis = Genesis(domain: Domain, administrator: OwnerId, principals: Vec<PrincipalBinding>)

  datatype Action =
    | ActRegisterMarket(market: Market)
    | ActAddCell(cell: CellId, underwriting: UnderwritingPolicy)
    | ActChangeCellPolicy(cell: CellId, expectedRevision: u64, underwriting: UnderwritingPolicy)
    | ActAddMember(member: MemberId, delegate: Option<DelegateId>, policy: Policy)
    | ActChangePolicy(member: MemberId, expectedRevision: u64, delegate: Option<DelegateId>, policy: Policy)
    | ActContribute(member: MemberId, amount: u128)
    | ActFundCell(cell: CellId, amount: u128)
    | ActWithdraw(member: MemberId, amount: u128)
    | ActWithdrawCell(cell: CellId, amount: u128)
    | ActOpen(openIntent: OpenIntent)
    | ActClose(closeIntent: CloseIntent)
    | ActRecordTerminalObservation(position: PositionId, observation: Observation)
    | ActCancelPending

  datatype Intent = Intent(
    genesisHash: bytes32, actor: Actor, sequence: u64, notBeforeSlot: u64, expiresSlot: u64,
    authorizationRevision: Option<u64>, action: Action)

  datatype SignedEnvelope = SignedEnvelope(intent: Intent, signature: bytes64)

  datatype ExecutionContext = ExecutionContext(nowSlot: u64, observation: Option<Observation>)

  datatype AuthOutcome = Kernel(outcome: Outcome) | NonceAdvanced(actor: Actor, nextSequence: u64)

  datatype Evidence =
    | Signed(envelope: SignedEnvelope, context: ExecutionContext)
    | Matured(position: PositionId, nowSlot: u64)

  datatype AuthenticatedRecord = AuthenticatedRecord(
    index: u64, previousHash: bytes32, evidence: Evidence, outcome: AuthOutcome, hash: bytes32)

  // ---- Identifiers, sets and policies ----

  function ActorTag(a: Actor): nat { if a.Owner? then 0 else 1 }

  function ActorCodec(): (c: Codec<Actor>)
    ensures Canonical(c)
  {
    var cases := [Case(U64(), id => Owner(id), (a: Actor) => if a.Owner? then Some(a.owner) else None, ActorTag, 0),
                  Case(U64(), id => Delegate(id), (a: Actor) => if a.Delegate? then Some(a.delegate) else None,
                       ActorTag, 1)];
    UnionCanonical(cases, ActorTag);
    Union(cases, ActorTag)
  }

  function SideTag(s: Side): nat { if s.Long? then 0 else 1 }

  function SideCodec(): (c: Codec<Side>)
    ensures Canonical(c)
  {
    var cases := [Plain(Long, SideTag, 0), Plain(Short, SideTag, 1)];
    UnionCanonical(cases, SideTag);
    Union(cases, SideTag)
  }

  /** Strictly ordered on the wire, so duplicates and reorderings do not decode. */
  function IdSetCodec(): (c: Codec<IdSet>)
    ensures Canonical(c)
  {
    Narrow(VecOf(U64()), (s: IdSet) => s, (v: Vec<u64>) => ToIdSet(v))
  }

  function ToIdSet(v: Vec<u64>): Option<IdSet> {
    if Ascending(v, IdLess) then Some(v) else None
  }

  function AdmissionCodec(): (c: Codec<Admission>)
    ensures Canonical(c)
  {
    Iso(Triple(U64(), U64(), U64()), (t: (u64, (u64, u64))) => Admission(t.0, t.1.0, t.1.1),
        (a: Admission) => (a.member, (a.owner, a.generation)))
  }

  function AdmissionSetCodec(): (c: Codec<AdmissionSet>)
    ensures Canonical(c)
  {
    Narrow(VecOf(AdmissionCodec()), (s: AdmissionSet) => s, (v: Vec<Admission>) => ToAdmissionSet(v))
  }

  function ToAdmissionSet(v: Vec<Admission>): Option<AdmissionSet> {
    if Ascending(v, AdmissionLess) then Some(v) else None
  }

  function MarketGenerationCodec(): (c: Codec<MarketGeneration>)
    ensures Canonical(c)
  {
    Iso(Pair(U64(), U64()), (t: (u64, u64)) => MarketGeneration(t.0, t.1),
        (m: MarketGeneration) => (m.market, m.generation))
  }

  function MarketGenerationSetCodec(): (c: Codec<MarketGenerationSet>)
    ensures Canonical(c)
  {
    Narrow(VecOf(MarketGenerationCodec()), (s: MarketGenerationSet) => s,
           (v: Vec<MarketGeneration>) => ToMarketGenerationSet(v))
  }

  function ToMarketGenerationSet(v: Vec<MarketGeneration>): Option<MarketGenerationSet> {
    if Ascending(v, MarketGenerationLess) then Some(v) else None
  }

  function PolicyCodec(): (c: Codec<Policy>)
    ensures Canonical(c)
  {
    Iso(Triple(Quad(U128(), U128(), IdSetCodec(), IdSetCodec()), Quad(U32(), U128(), U128(), U16()),
               Pair(U16(), U64())),
        (t: ((u128, (u128, (IdSet, IdSet))), ((u32, (u128, (u128, u16))), (u16, u64)))) =>
          Policy(t.0.0, t.0.1.0, t.0.1.1.0, t.0.1.1.1, t.1.0.0, t.1.0.1.0, t.1.0.1.1.0, t.1.0.1.1.1, t.1.1.0, t.1.1.1),
        (p: Policy) =>
          ((p.contributionLimit, (p.lossLimit, (p.allowedMarkets, p.allowedCells))),
           ((p.maxLeverageBps, (p.maxPositionNotional, (p.maxTotalNotional, p.maxOpenPositions))),
            (p.maxFeeBps, p.maxIntentLifetimeSlots))))
  }

  function UnderwritingCodec(): (c: Codec<UnderwritingPolicy>)
    ensures Canonical(c)
  {
    Iso(Pair(Quad(AdmissionSetCodec(), MarketGenerationSetCodec(), U128(), U128()), Triple(U32(), U128(), U16())),
        (t: ((AdmissionSet, (MarketGenerationSet, (u128, u128))), (u32, (u128, u16)))) =>
          UnderwritingPolicy(t.0.0, t.0.1.0, t.0.1.1.0, t.0.1.1.1, t.1.0, t.1.1.0, t.1.1.1),
        (p: UnderwritingPolicy) =>
          ((p.allowedMembers, (p.allowedMarketGenerations, (p.maxPositionNotional, p.maxProfitCap))),
           (p.maxLeverageBps, (p.maxTotalReserved, p.minFeeBps))))
  }

  function MarketCodec(): (c: Codec<Market>)
    ensures Canonical(c)
  {
    Iso(Pair(Quad(U64(), U64(), U8(), U128()), Quad(U128(), U64(), U64(), U16())),
        (t: ((u64, (u64, (u8, u128))), (u128, (u64, (u64, u16))))) =>
          Market(t.0.0, t.0.1.0, t.0.1.1.0, t.0.1.1.1, t.1.0, t.1.1.0, t.1.1.1.0, t.1.1.1.1),
        (m: Market) =>
          ((m.id, (m.generation, (m.assetDecimals, m.minPrice))),
           (m.maxPrice, (m.maxOracleAgeSlots, (m.maxPositionLifetimeSlots, m.feeBps)))))
  }

  function ObservationCodec(): (c: Codec<Observation>)
    ensures Canonical(c)
  {
    Iso(Quad(U64(), U64(), U128(), U64()),
        (t: (u64, (u64, (u128, u64)))) => Observation(t.0, t.1.0, t.1.1.0, t.1.1.1),
        (o: Observation) => (o.market, (o.generation, (o.price, o.publishedSlot))))
  }

  // ---- Intents and receipts ----

  function ConsentCodec(): (c: Codec<Consent>)
    ensures Canonical(c)
  {
    Iso(Triple(Quad(U64(), U64(), U64(), U64()), Quad(U64(), U64(), U64(), U64()), Pair(U128(), U128())),
        (t: ((u64, (u64, (u64, u64))), ((u64, (u64, (u64, u64))), (u128, u128)))) =>
          Consent(t.0.0, t.0.1.0, t.0.1.1.0, t.0.1.1.1, t.1.0.0, t.1.0.1.0, t.1.0.1.1.0, t.1.0.1.1.1, t.1.1.0, t.1.1.1),
        (c: Consent) =>
          ((c.room, (c.member, (c.memberGeneration, c.policyRevision))),
           ((c.marketGeneration, (c.nonce, (c.issuedSlot, c.expiresSlot))),
            (c.minExecutionPrice, c.maxExecutionPrice))))
  }

  function OpenIntentCodec(): (c: Codec<OpenIntent>)
    ensures Canonical(c)
  {
    Iso(Triple(Quad(ConsentCodec(), U64(), U64(), U64()), Quad(SideCodec(), U128(), U128(), U128()),
               Pair(U128(), U64())),
        (t: ((Consent, (u64, (u64, u64))), ((Side, (u128, (u128, u128))), (u128, u64)))) =>
          OpenIntent(t.0.0, t.0.1.0, t.0.1.1.0, t.0.1.1.1, t.1.0.0, t.1.0.1.0, t.1.0.1.1.0, t.1.0.1.1.1, t.1.1.0,
                     t.1.1.1),
        (i: OpenIntent) =>
          ((i.consent, (i.market, (i.cell, i.cellPolicyRevision))),
           ((i.side, (i.sizeBase, (i.collateral, i.profitCap))), (i.maxFee, i.maturitySlot))))
  }

  function CloseIntentCodec(): (c: Codec<CloseIntent>)
    ensures Canonical(c)
  {
    Iso(Pair(ConsentCodec(), U64()), (t: (Consent, u64)) => CloseIntent(t.0, t.1),
        (i: CloseIntent) => (i.consent, i.position))
  }

  function OpenReceiptCodec(): (c: Codec<OpenReceipt>)
    ensures Canonical(c)
  {
    Iso(Triple(Quad(U64(), U64(), U64(), OpenIntentCodec()),
               Quad(PolicyCodec(), UnderwritingCodec(), MarketCodec(), ObservationCodec()),
               Quad(U64(), U128(), U128(), U128())),
        (t: ((u64, (u64, (u64, OpenIntent))),
             ((Policy, (UnderwritingPolicy, (Market, Observation))), (u64, (u128, (u128, u128)))))) =>
          OpenReceipt(t.0.0, t.0.1.0, t.0.1.1.0, t.0.1.1.1, t.1.0.0, t.1.0.1.0, t.1.0.1.1.0, t.1.0.1.1.1,
                      t.1.1.0, t.1.1.1.0, t.1.1.1.1.0, t.1.1.1.1.1),
        (r: OpenReceipt) =>
          ((r.position, (r.owner, (r.backingOwner, r.intent))),
           ((r.policy, (r.cellPolicy, (r.market, r.observation))),
            (r.executedSlot, (r.entryNotional, (r.fee, r.maximumPayout))))))
  }

  function CloseReceiptCodec(): (c: Codec<CloseReceipt>)
    ensures Canonical(c)
  {
    Iso(Triple(Quad(U64(), U64(), U64(), U64()), Quad(U64(), U64(), ObservationCodec(), U64()),
               Triple(U128(), U128(), U128())),
        (t: ((u64, (u64, (u64, u64))), ((u64, (u64, (Observation, u64))), (u128, (u128, u128))))) =>
          CloseReceipt(t.0.0, t.0.1.0, t.0.1.1.0, t.0.1.1.1, t.1.0.0, t.1.0.1.0, t.1.0.1.1.0, t.1.0.1.1.1,
                       t.1.1.0, t.1.1.1.0, t.1.1.1.1),
        (r: CloseReceipt) =>
          ((r.position, (r.member, (r.owner, r.cell))),
           ((r.policyRevisionAtOpen, (r.marketGeneration, (r.observation, r.executedSlot))),
            (r.payout, (r.realizedLoss, r.releasedReserve)))))
  }

  function OutcomeTag(o: Outcome): nat {
    if o.RegisteredMarket? then 0
    else if o.AddedCell? then 1
    else if o.ChangedCellPolicy? then 2
    else if o.RecordedTerminalObservation? then 3
    else if o.AddedMember? then 4
    else if o.ChangedPolicy? then 5
    else if o.Contributed? then 6
    else if o.FundedCell? then 7
    else if o.Withdrawn? then 8
    else if o.WithdrawnCell? then 9
    else if o.Opened? then 10
    else 11
  }

  function RegisteredMarketCase(c: Codec<(u64, u64)>): (x: Variant<Outcome>)
    requires Canonical(c)
    ensures Good(x, OutcomeTag, 0)
  {
    Case(c, (t: (u64, u64)) => RegisteredMarket(t.0, t.1),
         (o: Outcome) => if o.RegisteredMarket? then Some((o.market, o.generation)) else None, OutcomeTag, 0)
  }

  function AddedCellCase(c: Codec<u64>): (x: Variant<Outcome>)
    requires Canonical(c)
    ensures Good(x, OutcomeTag, 1)
  {
    Case(c, id => AddedCell(id), (o: Outcome) => if o.AddedCell? then Some(o.cell) else None, OutcomeTag, 1)
  }

  function ChangedCellPolicyCase(c: Codec<(u64, u64)>): (x: Variant<Outcome>)
    requires Canonical(c)
    ensures Good(x, OutcomeTag, 2)
  {
    Case(c, (t: (u64, u64)) => ChangedCellPolicy(t.0, t.1),
         (o: Outcome) => if o.ChangedCellPolicy? then Some((o.cell, o.revision)) else None, OutcomeTag, 2)
  }

  function RecordedTerminalObservationCase(c: Codec<Observation>): (x: Variant<Outcome>)
    requires Canonical(c)
    ensures Good(x, OutcomeTag, 3)
  {
    Case(c, (x: Observation) => RecordedTerminalObservation(x),
         (o: Outcome) => if o.RecordedTerminalObservation? then Some(o.observation) else None, OutcomeTag, 3)
  }

  function AddedMemberCase(c: Codec<u64>): (x: Variant<Outcome>)
    requires Canonical(c)
    ensures Good(x, OutcomeTag, 4)
  {
    Case(c, id => AddedMember(id), (o: Outcome) => if o.AddedMember? then Some(o.member) else None, OutcomeTag, 4)
  }

  function ChangedPolicyCase(c: Codec<(u64, u64)>): (x: Variant<Outcome>)
    requires Canonical(c)
    ensures Good(x, OutcomeTag, 5)
  {
    Case(c, (t: (u64, u64)) => ChangedPolicy(t.0, t.1),
         (o: Outcome) => if o.ChangedPolicy? then Some((o.member, o.revision)) else None, OutcomeTag, 5)
  }

  function ContributedCase(c: Codec<(u64, u128)>): (x: Variant<Outcome>)
    requires Canonical(c)
    ensures Good(x, OutcomeTag, 6)
  {
    Case(c, (t: (u64, u128)) => Contributed(t.0, t.1),
         (o: Outcome) => if o.Contributed? then Some((o.member, o.amount)) else None, OutcomeTag, 6)
  }

  function FundedCellCase(c: Codec<(u64, u128)>): (x: Variant<Outcome>)
    requires Canonical(c)
    ensures Good(x, OutcomeTag, 7)
  {
    Case(c, (t: (u64, u128)) => FundedCell(t.0, t.1),
         (o: Outcome) => if o.FundedCell? then Some((o.cell, o.amount)) else None, OutcomeTag, 7)
  }

  function WithdrawnCase(c: Codec<(u64, (u64, u128))>): (x: Variant<Outcome>)
    requires Canonical(c)
    ensures Good(x, OutcomeTag, 8)
  {
    Case(c, (t: (u64, (u64, u128))) => Withdrawn(t.0, t.1.0, t.1.1),
         (o: Outcome) => if o.Withdrawn? then Some((o.member, (o.owner, o.amount))) else None, OutcomeTag, 8)
  }

  function WithdrawnCellCase(c: Codec<(u64, (u64, u128))>): (x: Variant<Outcome>)
    requires Canonical(c)
    ensures Good(x, OutcomeTag, 9)
  {
    Case(c, (t: (u64, (u64, u128))) => WithdrawnCell(t.0, t.1.0, t.1.1),
         (o: Outcome) => if o.WithdrawnCell? then Some((o.cell, (o.owner, o.amount))) else None, OutcomeTag, 9)
  }

  function OpenedCase(c: Codec<OpenReceipt>): (x: Variant<Outcome>)
    requires Canonical(c)
    ensures Good(x, OutcomeTag, 10)
  {
    Case(c, (r: OpenReceipt) => Opened(r),
         (o: Outcome) => if o.Opened? then Some(o.receipt) else None, OutcomeTag, 10)
  }

  function ClosedCase(c: Codec<CloseReceipt>): (x: Variant<Outcome>)
    requires Canonical(c)
    ensures Good(x, OutcomeTag, 11)
  {
    Case(c, (r: CloseReceipt) => Closed(r),
         (o: Outcome) => if o.Closed? then Some(o.closed) else None, OutcomeTag, 11)
  }

  /** The kernel's results, in declaration order. */
  function OutcomeCases(pair: Codec<(u64, u64)>, amount: Codec<(u64, u128)>, payment: Codec<(u64, (u64, u128))>,
                        observation: Codec<Observation>, entry: Codec<OpenReceipt>, exit: Codec<CloseReceipt>)
    : seq<Variant<Outcome>>
    requires Canonical(pair) && Canonical(amount) && Canonical(payment)
    requires Canonical(observation) && Canonical(entry) && Canonical(exit)
  {
    [RegisteredMarketCase(pair), AddedCellCase(U64()), ChangedCellPolicyCase(pair),
     RecordedTerminalObservationCase(observation), AddedMemberCase(U64()), ChangedPolicyCase(pair),
     ContributedCase(amount), FundedCellCase(amount), WithdrawnCase(payment), WithdrawnCellCase(payment),
     OpenedCase(entry), ClosedCase(exit)]
  }

  function OutcomeCodec(): Codec<Outcome> {
    Union(OutcomeCases(Pair(U64(), U64()), Pair(U64(), U128()), Triple(U64(), U64(), U128()),
                       ObservationCodec(), OpenReceiptCodec(), CloseReceiptCodec()), OutcomeTag)
  }

  lemma OutcomeCodecCanonical()
    ensures Canonical(OutcomeCodec())
  {
    hide Canonical, Good, Union, Pair, Triple, U64, U128, ObservationCodec, OpenReceiptCodec, CloseReceiptCodec,
         RegisteredMarketCase, AddedCellCase, ChangedCellPolicyCase, RecordedTerminalObservationCase, AddedMemberCase,
         ChangedPolicyCase, ContributedCase, FundedCellCase, WithdrawnCase, WithdrawnCellCase, OpenedCase, ClosedCase;
    UnionCanonical(OutcomeCases(Pair(U64(), U64()), Pair(U64(), U128()), Triple(U64(), U64(), U128()),
                                ObservationCodec(), OpenReceiptCodec(), CloseReceiptCodec()), OutcomeTag);
  }

  // ---- Actions, in declaration order ----

  function ActionTag(a: Action): nat {
    if a.ActRegisterMarket? then 0
    else if a.ActAddCell? then 1
    else if a.ActChangeCellPolicy? then 2
    else if a.ActAddMember? then 3
    else if a.ActChangePolicy? then 4
    else if a.ActContribute? then 5
    else if a.ActFundCell? then 6
    else if a.ActWithdraw? then 7
    else if a.ActWithdrawCell? then 8
    else if a.ActOpen? then 9
    else if a.ActClose? then 10
    else if a.ActRecordTerminalObservation? then 11
    else 12
  }

  function ActRegisterMarketCase(c: Codec<Market>): (x: Variant<Action>)
    requires Canonical(c)
    ensures Good(x, ActionTag, 0)
  {
    Case(c, (m: Market) => ActRegisterMarket(m),
         (a: Action) => if a.ActRegisterMarket? then Some(a.market) else None, ActionTag, 0)
  }

  function ActAddCellCase(c: Codec<(u64, UnderwritingPolicy)>): (x: Variant<Action>)
    requires Canonical(c)
    ensures Good(x, ActionTag, 1)
  {
    Case(c, (t: (u64, UnderwritingPolicy)) => ActAddCell(t.0, t.1),
         (a: Action) => if a.ActAddCell? then Some((a.cell, a.underwriting)) else None, ActionTag, 1)
  }

  function ActChangeCellPolicyCase(c: Codec<(u64, (u64, UnderwritingPolicy))>): (x: Variant<Action>)
    requires Canonical(c)
    ensures Good(x, ActionTag, 2)
  {
    Case(c, (t: (u64, (u64, UnderwritingPolicy))) => ActChangeCellPolicy(t.0, t.1.0, t.1.1),
         (a: Action) => if a.ActChangeCellPolicy? then Some((a.cell, (a.expectedRevision, a.underwriting)))
             else None, ActionTag, 2)
  }

  function ActAddMemberCase(c: Codec<(u64, (Option<u64>, Policy))>): (x: Variant<Action>)
    requires Canonical(c)
    ensures Good(x, ActionTag, 3)
  {
    Case(c, (t: (u64, (Option<u64>, Policy))) => ActAddMember(t.0, t.1.0, t.1.1),
         (a: Action) => if a.ActAddMember? then Some((a.member, (a.delegate, a.policy))) else None, ActionTag, 3)
  }

  function ActChangePolicyCase(c: Codec<(u64, (u64, (Option<u64>, Policy)))>): (x: Variant<Action>)
    requires Canonical(c)
    ensures Good(x, ActionTag, 4)
  {
    Case(c, (t: (u64, (u64, (Option<u64>, Policy)))) => ActChangePolicy(t.0, t.1.0, t.1.1.0, t.1.1.1),
         (a: Action) => if a.ActChangePolicy? then Some((a.member, (a.expectedRevision, (a.delegate, a.policy))))
             else None,
         ActionTag, 4)
  }

  function ActContributeCase(c: Codec<(u64, u128)>): (x: Variant<Action>)
    requires Canonical(c)
    ensures Good(x, ActionTag, 5)
  {
    Case(c, (t: (u64, u128)) => ActContribute(t.0, t.1),
         (a: Action) => if a.ActContribute? then Some((a.member, a.amount)) else None, ActionTag, 5)
  }

  function ActFundCellCase(c: Codec<(u64, u128)>): (x: Variant<Action>)
    requires Canonical(c)
    ensures Good(x, ActionTag, 6)
  {
    Case(c, (t: (u64, u128)) => ActFundCell(t.0, t.1),
         (a: Action) => if a.ActFundCell? then Some((a.cell, a.amount)) else None, ActionTag, 6)
  }

  function ActWithdrawCase(c: Codec<(u64, u128)>): (x: Variant<Action>)
    requires Canonical(c)
    ensures Good(x, ActionTag, 7)
  {
    Case(c, (t: (u64, u128)) => ActWithdraw(t.0, t.1),
         (a: Action) => if a.ActWithdraw? then Some((a.member, a.amount)) else None, ActionTag, 7)
  }

  function ActWithdrawCellCase(c: Codec<(u64, u128)>): (x: Variant<Action>)
    requires Canonical(c)
    ensures Good(x, ActionTag, 8)
  {
    Case(c, (t: (u64, u128)) => ActWithdrawCell(t.0, t.1),
         (a: Action) => if a.ActWithdrawCell? then Some((a.cell, a.amount)) else None, ActionTag, 8)
  }

  function ActOpenCase(c: Codec<OpenIntent>): (x: Variant<Action>)
    requires Canonical(c)
    ensures Good(x, ActionTag, 9)
  {
    Case(c, (i: OpenIntent) => ActOpen(i),
         (a: Action) => if a.ActOpen? then Some(a.openIntent) else None, ActionTag, 9)
  }

  function ActCloseCase(c: Codec<CloseIntent>): (x: Variant<Action>)
    requires Canonical(c)
    ensures Good(x, ActionTag, 10)
  {
    Case(c, (i: CloseIntent) => ActClose(i),
         (a: Action) => if a.ActClose? then Some(a.closeIntent) else None, ActionTag, 10)
  }

  function ActRecordTerminalObservationCase(c: Codec<(u64, Observation)>): (x: Variant<Action>)
    requires Canonical(c)
    ensures Good(x, ActionTag, 11)
  {
    Case(c, (t: (u64, Observation)) => ActRecordTerminalObservation(t.0, t.1),
         (a: Action) => if a.ActRecordTerminalObservation? then Some((a.position, a.observation))
             else None, ActionTag, 11)
  }

  function ActCancelPendingCase(): (x: Variant<Action>)
    ensures Good(x, ActionTag, 12)
  {
    Plain(ActCancelPending, ActionTag, 12)
  }

  function ActionCases(
      market: Codec<Market>, cell: Codec<(u64, UnderwritingPolicy)>,
      cellChange: Codec<(u64, (u64, UnderwritingPolicy))>,
      member: Codec<(u64, (Option<u64>, Policy))>, memberChange: Codec<(u64, (u64, (Option<u64>, Policy)))>,
      amount: Codec<(u64, u128)>, open: Codec<OpenIntent>, close: Codec<CloseIntent>,
      terminal: Codec<(u64, Observation)>)
    : seq<Variant<Action>>
    requires Canonical(market) && Canonical(cell) && Canonical(cellChange) && Canonical(member)
        && Canonical(memberChange)
    requires Canonical(amount) && Canonical(open) && Canonical(close) && Canonical(terminal)
  {
    [ActRegisterMarketCase(market), ActAddCellCase(cell), ActChangeCellPolicyCase(cellChange), ActAddMemberCase(member),
     ActChangePolicyCase(memberChange), ActContributeCase(amount), ActFundCellCase(amount), ActWithdrawCase(amount),
     ActWithdrawCellCase(amount), ActOpenCase(open), ActCloseCase(close), ActRecordTerminalObservationCase(terminal),
     ActCancelPendingCase()]
  }

  function ActionCodec(): Codec<Action> {
    Union(ActionCases(MarketCodec(), Pair(U64(), UnderwritingCodec()), Triple(U64(), U64(), UnderwritingCodec()),
                      Triple(U64(), Optional(U64()), PolicyCodec()), Quad(U64(), U64(), Optional(U64()), PolicyCodec()),
                      Pair(U64(), U128()), OpenIntentCodec(), CloseIntentCodec(), Pair(U64(), ObservationCodec())),
          ActionTag)
  }

  lemma ActionCodecCanonical()
    ensures Canonical(ActionCodec())
  {
    hide Canonical, Good, Union, Pair, Triple, Quad, Optional, U64, U128, MarketCodec, UnderwritingCodec, PolicyCodec,
         ObservationCodec, OpenIntentCodec, CloseIntentCodec, ActRegisterMarketCase, ActAddCellCase,
         ActChangeCellPolicyCase, ActAddMemberCase, ActChangePolicyCase, ActContributeCase, ActFundCellCase,
         ActWithdrawCase, ActWithdrawCellCase, ActOpenCase, ActCloseCase, ActRecordTerminalObservationCase,
         ActCancelPendingCase;
    UnionCanonical(ActionCases(MarketCodec(), Pair(U64(), UnderwritingCodec()),
                               Triple(U64(), U64(), UnderwritingCodec()),
                               Triple(U64(), Optional(U64()), PolicyCodec()),
                               Quad(U64(), U64(), Optional(U64()), PolicyCodec()), Pair(U64(), U128()),
                               OpenIntentCodec(),
                               CloseIntentCodec(), Pair(U64(), ObservationCodec())), ActionTag);
  }

  // ---- Envelopes, genesis and records ----

  function IntentCodec(): (c: Codec<Intent>)
    ensures Canonical(c)
  {
    ActionCodecCanonical();
    Iso(Pair(Quad(Bytes32(), ActorCodec(), U64(), U64()), Triple(U64(), Optional(U64()), ActionCodec())),
        (t: ((bytes32, (Actor, (u64, u64))), (u64, (Option<u64>, Action)))) =>
          Intent(t.0.0, t.0.1.0, t.0.1.1.0, t.0.1.1.1, t.1.0, t.1.1.0, t.1.1.1),
        (i: Intent) =>
          ((i.genesisHash, (i.actor, (i.sequence, i.notBeforeSlot))),
           (i.expiresSlot, (i.authorizationRevision, i.action))))
  }

  function EnvelopeCodec(): (c: Codec<SignedEnvelope>)
    ensures Canonical(c)
  {
    Iso(Pair(IntentCodec(), Bytes64()), (t: (Intent, bytes64)) => SignedEnvelope(t.0, t.1),
        (e: SignedEnvelope) => (e.intent, e.signature))
  }

  function BindingCodec(): (c: Codec<PrincipalBinding>)
    ensures Canonical(c)
  {
    Iso(Pair(ActorCodec(), Bytes32()), (t: (Actor, bytes32)) => PrincipalBinding(t.0, t.1),
        (b: PrincipalBinding) => (b.actor, b.publicKey))
  }

  function GenesisCodec(): (c: Codec<Genesis>)
    ensures Canonical(c)
  {
    Iso(Triple(Triple(Bytes32(), Bytes32(), U64()), U64(), VecOf(BindingCodec())),
        (t: ((bytes32, (bytes32, u64)), (u64, Vec<PrincipalBinding>))) => Genesis(Domain(t.0.0, t.0.1.0, t.0.1.1),
            t.1.0, t.1.1),
        (g: Genesis) => ((g.domain.network, (g.domain.deployment, g.domain.room)), (g.administrator, g.principals)))
  }

  function ContextCodec(): (c: Codec<ExecutionContext>)
    ensures Canonical(c)
  {
    Iso(Pair(U64(), Optional(ObservationCodec())), (t: (u64, Option<Observation>)) => ExecutionContext(t.0, t.1),
        (x: ExecutionContext) => (x.nowSlot, x.observation))
  }

  function EvidenceTag(e: Evidence): nat { if e.Signed? then 0 else 1 }

  function EvidenceCases(signed: Codec<(SignedEnvelope, ExecutionContext)>,
                         matured: Codec<(u64, u64)>): seq<Variant<Evidence>>
    requires Canonical(signed) && Canonical(matured)
  {
    [Case(signed, (t: (SignedEnvelope, ExecutionContext)) => Signed(t.0, t.1),
          (e: Evidence) => if e.Signed? then Some((e.envelope, e.context)) else None, EvidenceTag, 0),
     Case(matured, (t: (u64, u64)) => Matured(t.0, t.1),
          (e: Evidence) => if e.Matured? then Some((e.position, e.nowSlot)) else None, EvidenceTag, 1)]
  }

  function EvidenceCodec(): Codec<Evidence> {
    Union(EvidenceCases(Pair(EnvelopeCodec(), ContextCodec()), Pair(U64(), U64())), EvidenceTag)
  }

  lemma EvidenceCodecCanonical()
    ensures Canonical(EvidenceCodec())
  {
    hide Canonical, Good, Union, Case, Pair, U64, EnvelopeCodec, ContextCodec;
    UnionCanonical(EvidenceCases(Pair(EnvelopeCodec(), ContextCodec()), Pair(U64(), U64())), EvidenceTag);
  }

  function AuthOutcomeTag(o: AuthOutcome): nat { if o.Kernel? then 0 else 1 }

  function AuthOutcomeCases(kernel: Codec<Outcome>, advanced: Codec<(Actor, u64)>): seq<Variant<AuthOutcome>>
    requires Canonical(kernel) && Canonical(advanced)
  {
    [Case(kernel, (o: Outcome) => Kernel(o), (o: AuthOutcome) => if o.Kernel? then Some(o.outcome) else None,
          AuthOutcomeTag, 0),
     Case(advanced, (t: (Actor, u64)) => NonceAdvanced(t.0, t.1),
          (o: AuthOutcome) => if o.NonceAdvanced? then Some((o.actor, o.nextSequence)) else None, AuthOutcomeTag, 1)]
  }

  function AuthOutcomeCodec(): Codec<AuthOutcome> {
    OutcomeCodecCanonical();
    Union(AuthOutcomeCases(OutcomeCodec(), Pair(ActorCodec(), U64())), AuthOutcomeTag)
  }

  lemma AuthOutcomeCodecCanonical()
    ensures Canonical(AuthOutcomeCodec())
  {
    hide Canonical, Good, Union, Case, Pair, U64, OutcomeCodec, ActorCodec;
    OutcomeCodecCanonical();
    UnionCanonical(AuthOutcomeCases(OutcomeCodec(), Pair(ActorCodec(), U64())), AuthOutcomeTag);
  }

  type Body = (u64, (bytes32, (Evidence, AuthOutcome)))

  /** What a record's hash commits to: its index, the previous hash, its evidence and its outcome. */
  function BodyCodec(): Codec<Body> {
    EvidenceCodecCanonical();
    AuthOutcomeCodecCanonical();
    Quad(U64(), Bytes32(), EvidenceCodec(), AuthOutcomeCodec())
  }

  lemma BodyCodecCanonical()
    ensures Canonical(BodyCodec())
  {
    hide Canonical, Quad, U64, Bytes32, EvidenceCodec, AuthOutcomeCodec;
    EvidenceCodecCanonical();
    AuthOutcomeCodecCanonical();
  }

  function BodyOf(r: AuthenticatedRecord): Body {
    (r.index, (r.previousHash, (r.evidence, r.outcome)))
  }

  function Hashed(body: Codec<Body>): (c: Codec<AuthenticatedRecord>)
    requires Canonical(body)
    ensures Canonical(c)
  {
    Iso(Pair(body, Bytes32()), (t: (Body, bytes32)) => AuthenticatedRecord(t.0.0, t.0.1.0, t.0.1.1.0, t.0.1.1.1, t.1),
        (r: AuthenticatedRecord) => (BodyOf(r), r.hash))
  }

  function RecordCodec(): Codec<AuthenticatedRecord> {
    BodyCodecCanonical();
    Hashed(BodyCodec())
  }

  lemma RecordCodecCanonical()
    ensures Canonical(RecordCodec())
  {
    hide Canonical, BodyCodec, Hashed;
    BodyCodecCanonical();
  }

  // ---- The bounded frame ----

  datatype WireError = TooLarge | InvalidEncoding | NonCanonical

  function Bounded(bytes: seq<u8>): Result<seq<u8>, WireError> {
    if |bytes| > MAX_WIRE_BYTES then Failure(TooLarge) else Success(bytes)
  }

  function Encode<T>(c: Codec<T>, value: T): Result<seq<u8>, WireError> {
    Bounded(c.enc(value))
  }

  /** Oversized input, trailing bytes and anything that would not re-encode to itself are refused. */
  function Decode<T>(c: Codec<T>, bytes: seq<u8>): Result<T, WireError> {
    if |bytes| > MAX_WIRE_BYTES then Failure(TooLarge)
    else
      var parsed := c.dec(bytes);
      if parsed.None? || parsed.value.1 != [] then Failure(InvalidEncoding)
      else
        var again :- Encode(c, parsed.value.0);
        if again != bytes then Failure(NonCanonical) else Success(parsed.value.0)
  }

  /** `b"SakuraRiskRooms/"`. */
  const PREFIX: seq<u8> := [83, 97, 107, 117, 114, 97, 82, 105, 115, 107, 82, 111, 111, 109, 115, 47]
  /** `b"Genesis\0"`, `b"Intent\0"` and `b"Receipt\0"`. */
  const GENESIS_DOMAIN: seq<u8> := PREFIX + [71, 101, 110, 101, 115, 105, 115, 0]
  const INTENT_DOMAIN: seq<u8> := PREFIX + [73, 110, 116, 101, 110, 116, 0]
  const RECEIPT_DOMAIN: seq<u8> := PREFIX + [82, 101, 99, 101, 105, 112, 116, 0]

  function Prefixed(domain: seq<u8>, body: seq<u8>): seq<u8> {
    domain + LeEnc(WIRE_VERSION, 2) + body
  }

  /** Domain, version, then the value: what is signed and what commits a genesis. */
  function EncodePrefixed<T>(domain: seq<u8>, c: Codec<T>, value: T): Result<seq<u8>, WireError> {
    Bounded(Prefixed(domain, c.enc(value)))
  }

  function ReceiptPreimage(body: seq<u8>): seq<u8> {
    Prefixed(RECEIPT_DOMAIN, body)
  }

  /** The encodings the gateway exchanges, signs and hashes. */
  datatype Format = Format(
    intent: Codec<Intent>, envelope: Codec<SignedEnvelope>, genesis: Codec<Genesis>, body: Codec<Body>,
    record: Codec<AuthenticatedRecord>)

  function Version1(): Format {
    Format(IntentCodec(), EnvelopeCodec(), GenesisCodec(), BodyCodec(), RecordCodec())
  }

  ghost predicate CanonicalFormat(f: Format) {
    Canonical(f.intent) && Canonical(f.envelope) && Canonical(f.genesis) && Canonical(f.body) && Canonical(f.record)
  }

  lemma Version1IsCanonical()
    ensures CanonicalFormat(Version1())
  {
    hide Canonical, IntentCodec, EnvelopeCodec, GenesisCodec, BodyCodec, RecordCodec;
    BodyCodecCanonical();
    RecordCodecCanonical();
  }

  // ---- Laws of the format ----

  lemma EncInverts<T(!new)>(c: Codec<T>, v: T)
    requires Canonical(c)
    ensures c.dec(c.enc(v)) == Some((v, []))
  {
    assert c.enc(v) + [] == c.enc(v);
  }

  /** Every value whose encoding fits the frame decodes back to itself. */
  lemma RoundTrip<T(!new)>(c: Codec<T>, v: T)
    requires Canonical(c)
    ensures Encode(c, v).Success? <==> |c.enc(v)| <= 16_384
    ensures Encode(c, v).Success? ==> Decode(c, Encode(c, v).value) == Success(v)
  {
    EncInverts(c, v);
  }

  /** Whatever decodes is exactly its value's encoding; the re-encoding check never fires. */
  lemma DecodedIsCanonical<T(!new)>(c: Codec<T>, bytes: seq<u8>)
    requires Canonical(c)
    ensures Decode(c, bytes).Success? ==> Encode(c, Decode(c, bytes).value) == Success(bytes)
    ensures Decode(c, bytes) != Failure(NonCanonical)
    ensures |bytes| > 16_384 ==> Decode(c, bytes) == Failure(TooLarge)
  {
    if c.dec(bytes).Some? && c.dec(bytes).value.1 == [] {
      assert c.enc(c.dec(bytes).value.0) + [] == c.enc(c.dec(bytes).value.0);
    }
  }

  lemma EncodingInjective<T(!new)>(c: Codec<T>, v: T, w: T)
    requires Canonical(c) && c.enc(v) == c.enc(w)
    ensures v == w
  {
    EncInverts(c, v);
    EncInverts(c, w);
  }

  lemma PrefixedInjective(domain: seq<u8>, a: seq<u8>, b: seq<u8>)
    requires Prefixed(domain, a) == Prefixed(domain, b)
    ensures a == b
  {
    var head := domain + LeEnc(WIRE_VERSION, 2);
    assert Prefixed(domain, a)[|head|..] == a && Prefixed(domain, b)[|head|..] == b;
  }

  /** The domains spell what they separate, and the version that follows them is one. */
  lemma DomainsSpell(domain: seq<u8>, body: seq<u8>)
    ensures Prefixed(domain, body) == domain + [1, 0] + body
    ensures Spells(GENESIS_DOMAIN, "SakuraRiskRooms/Genesis\0")
    ensures Spells(INTENT_DOMAIN, "SakuraRiskRooms/Intent\0")
    ensures Spells(RECEIPT_DOMAIN, "SakuraRiskRooms/Receipt\0")
  {
    var prefix := "SakuraRiskRooms/";
    assert Spells(PREFIX, prefix);
    SpellsTogether(PREFIX, prefix, [71, 101, 110, 101, 115, 105, 115, 0], "Genesis\0");
    SpellsTogether(PREFIX, prefix, [73, 110, 116, 101, 110, 116, 0], "Intent\0");
    SpellsTogether(PREFIX, prefix, [82, 101, 99, 101, 105, 112, 116, 0], "Receipt\0");
    assert prefix + "Genesis\0" == "SakuraRiskRooms/Genesis\0";
    assert prefix + "Intent\0" == "SakuraRiskRooms/Intent\0";
    assert prefix + "Receipt\0" == "SakuraRiskRooms/Receipt\0";
  }

  lemma SpellsTogether(a: seq<u8>, s: string, b: seq<u8>, t: string)
    requires Spells(a, s) && Spells(b, t)
    ensures Spells(a + b, s + t)
  {
  }

  predicate Spells(bytes: seq<u8>, text: string) {
    |bytes| == |text| && forall i :: 0 <= i < |text| ==> bytes[i] == text[i] as int
  }

  /** What is signed, what commits a genesis and what a record hashes can never be the same bytes. */
  lemma DomainsNeverCollide(a: seq<u8>, b: seq<u8>, c: seq<u8>)
    ensures Prefixed(INTENT_DOMAIN, a) != Prefixed(GENESIS_DOMAIN, b)
    ensures Prefixed(INTENT_DOMAIN, a) != Prefixed(RECEIPT_DOMAIN, c)
    ensures Prefixed(GENESIS_DOMAIN, b) != Prefixed(RECEIPT_DOMAIN, c)
  {
    assert Prefixed(INTENT_DOMAIN, a)[16] == 73;
    assert Prefixed(GENESIS_DOMAIN, b)[16] == 71;
    assert Prefixed(RECEIPT_DOMAIN, c)[16] == 82;
  }

  /** Equal signed bytes are equal intents, and equal genesis commitments equal genesis values. */
  lemma EncodePrefixedInjective<T(!new)>(domain: seq<u8>, c: Codec<T>, x: T, y: T)
    requires Canonical(c)
    requires EncodePrefixed(domain, c, x).Success? && EncodePrefixed(domain, c, x) == EncodePrefixed(domain, c, y)
    ensures x == y
  {
    PrefixedInjective(domain, c.enc(x), c.enc(y));
    EncodingInjective(c, x, y);
  }

  // ---- Sizes ----

  lemma ObservationSize(o: Observation)
    ensures |ObservationCodec().enc(o)| == 40
  {
  }

  lemma CloseReceiptSize(r: CloseReceipt)
    ensures |CloseReceiptCodec().enc(r)| == 144
  {
    hide ObservationCodec, Triple, Quad, Canonical;
    ObservationSize(r.observation);
    var (ids, trade, money) := (Quad(U64(), U64(), U64(), U64()), Quad(U64(), U64(), ObservationCodec(), U64()),
                                Triple(U128(), U128(), U128()));
    var v := (r.position, (r.member, (r.owner, r.cell)));
    var t := (r.policyRevisionAtOpen, (r.marketGeneration, (r.observation, r.executedSlot)));
    var m := (r.payout, (r.realizedLoss, r.releasedReserve));
    QuadBytes(U64(), U64(), U64(), U64(), v);
    QuadBytes(U64(), U64(), ObservationCodec(), U64(), t);
    TripleBytes(U128(), U128(), U128(), m);
    TripleBytes(ids, trade, money, (v, (t, m)));
  }

  lemma ClosedSize(r: CloseReceipt)
    ensures |OutcomeCodec().enc(Closed(r))| == 145
  {
    hide CloseReceiptCodec, OpenReceiptCodec, ObservationCodec, Pair, Triple, U64, U128, RegisteredMarketCase,
         AddedCellCase, ChangedCellPolicyCase, RecordedTerminalObservationCase, AddedMemberCase, ChangedPolicyCase,
         ContributedCase, FundedCellCase, WithdrawnCase, WithdrawnCellCase, OpenedCase;
    CloseReceiptSize(r);
  }

  lemma MaturedSize(position: PositionId, now: u64)
    ensures |EvidenceCodec().enc(Matured(position, now))| == 17
  {
    hide EnvelopeCodec, ContextCodec;
  }

  lemma KernelSize(o: Outcome)
    ensures |AuthOutcomeCodec().enc(Kernel(o))| == 1 + |OutcomeCodec().enc(o)|
  {
    hide OutcomeCodec, ActorCodec;
  }

  /** The record of a matured settlement always fits the frame. */
  lemma SettlementFits(r: AuthenticatedRecord)
    requires r.evidence.Matured? && r.outcome.Kernel? && r.outcome.outcome.Closed?
    ensures Encode(BodyCodec(), BodyOf(r)).Success? && Encode(RecordCodec(), r).Success?
  {
    hide EvidenceCodec, AuthOutcomeCodec, OutcomeCodec;
    MaturedSize(r.evidence.position, r.evidence.nowSlot);
    ClosedSize(r.outcome.outcome.closed);
    KernelSize(r.outcome.outcome);
    BodySize(r);
  }

  lemma BodySize(r: AuthenticatedRecord)
    ensures |BodyCodec().enc(BodyOf(r))| == 40 + |EvidenceCodec().enc(r.evidence)| + |AuthOutcomeCodec().enc(r.outcome)|
    ensures |RecordCodec().enc(r)| == |BodyCodec().enc(BodyOf(r))| + 32
  {
    hide EvidenceCodec, AuthOutcomeCodec;
  }

  // ---- The writer ----

  /** Collects an encoding chunk by chunk, refusing to grow past the frame. */
  class BoundedWriter {
    var bytes: seq<u8>
    var tooLarge: bool

    constructor ()
      ensures bytes == [] && !tooLarge
    {
      bytes, tooLarge := [], false;
    }

    method Write(chunk: seq<u8>) returns (ok: bool)
      modifies this
      ensures ok == (|old(bytes)| + |chunk| <= MAX_WIRE_BYTES)
      ensures bytes == if ok then old(bytes) + chunk else old(bytes)
      ensures tooLarge == (old(tooLarge) || !ok)
    {
      if |bytes| + |chunk| > MAX_WIRE_BYTES {
        tooLarge := true;
        return false;
      }
      bytes := bytes + chunk;
      return true;
    }
  }

  function Flatten(chunks: seq<seq<u8>>): seq<u8> {
    if chunks == [] then [] else Flatten(chunks[..|chunks| - 1]) + chunks[|chunks| - 1]
  }

  lemma {:induction false} FlattenGrows(chunks: seq<seq<u8>>, k: nat)
    requires k <= |chunks|
    ensures |Flatten(chunks[..k])| <= |Flatten(chunks)|
    decreases |chunks|
  {
    if k < |chunks| {
      FlattenGrows(chunks[..|chunks| - 1], k);
      assert chunks[..|chunks| - 1][..k] == chunks[..k];
    } else {
      assert chunks[..k] == chunks;
    }
  }

  /** However a serializer splits its output into writes, the bounded result is that of the whole encoding. */
  method WriteAll(chunks: seq<seq<u8>>) returns (r: Result<seq<u8>, WireError>)
    ensures r == Bounded(Flatten(chunks))
  {
    var writer := new BoundedWriter();
    for i := 0 to |chunks|
      invariant writer.bytes == Flatten(chunks[..i]) && !writer.tooLarge
      invariant fresh(writer)
      invariant |writer.bytes| <= MAX_WIRE_BYTES
    {
      assert chunks[..i + 1][..i] == chunks[..i];
      var ok := writer.Write(chunks[i]);
      if !ok {
        FlattenGrows(chunks, i + 1);
        return Failure(if writer.tooLarge then TooLarge else InvalidEncoding);
      }
    }
    assert chunks[..|chunks|] == chunks;
    return Success(writer.bytes);
  }
}

/**
 * The gateway's messages as Borsh writes them: fields in declaration order, little-endian integers,
 * one-byte tags, four-byte lengths. The codecs of `Wire` write exactly these bytes.
 */
module WireReference {
  import opened Numbers
  import opened Position
  import opened RoomModel
  import opened Codec
  import opened Wire

  function B2(n: u16): seq<u8> { LeEnc(n, 2) }
  function B4(n: u32): seq<u8> { LeEnc(n, 4) }
  function B8(n: u64): seq<u8> { LeEnc(n, 8) }
  function B16(n: u128): seq<u8> { LeEnc(n, 16) }

  function BOption(o: Option<u64>): seq<u8> {
    if o.None? then [0] else [1] + B8(o.value)
  }

  function BActor(a: Actor): seq<u8> {
    match a
    case Owner(id) => [0] + B8(id)
    case Delegate(id) => [1] + B8(id)
  }

  function BAdmission(a: Admission): seq<u8> {
    B8(a.member) + B8(a.owner) + B8(a.generation)
  }

  function BGeneration(m: MarketGeneration): seq<u8> {
    B8(m.market) + B8(m.generation)
  }

  function BBinding(b: PrincipalBinding): seq<u8> {
    BActor(b.actor) + b.publicKey
  }

  /** The elements of a list, one after the other. */
  function BAll<T>(element: T -> seq<u8>, s: seq<T>): seq<u8> {
    if s == [] then [] else element(s[0]) + BAll(element, s[1..])
  }

  function BIds(s: IdSet): seq<u8> {
    B4(|s|) + BAll((id: u64) => B8(id), s)
  }

  function BAdmissions(s: AdmissionSet): seq<u8> {
    B4(|s|) + BAll((a: Admission) => BAdmission(a), s)
  }

  function BGenerations(s: MarketGenerationSet): seq<u8> {
    B4(|s|) + BAll((m: MarketGeneration) => BGeneration(m), s)
  }

  function BPolicy(p: Policy): seq<u8> {
    B16(p.contributionLimit) + B16(p.lossLimit) + BIds(p.allowedMarkets) + BIds(p.allowedCells) + B4(p.maxLeverageBps)
    + B16(p.maxPositionNotional) + B16(p.maxTotalNotional) + B2(p.maxOpenPositions) + B2(p.maxFeeBps)
        + B8(p.maxIntentLifetimeSlots)
  }

  function BUnderwriting(p: UnderwritingPolicy): seq<u8> {
    BAdmissions(p.allowedMembers) + BGenerations(p.allowedMarketGenerations) + B16(p.maxPositionNotional)
        + B16(p.maxProfitCap)
    + B4(p.maxLeverageBps) + B16(p.maxTotalReserved) + B2(p.minFeeBps)
  }

  function BMarket(m: Market): seq<u8> {
    B8(m.id) + B8(m.generation) + [m.assetDecimals] + B16(m.minPrice) + B16(m.maxPrice) + B8(m.maxOracleAgeSlots)
    + B8(m.maxPositionLifetimeSlots) + B2(m.feeBps)
  }

  function BObservation(o: Observation): seq<u8> {
    B8(o.market) + B8(o.generation) + B16(o.price) + B8(o.publishedSlot)
  }

  function BConsent(c: Consent): seq<u8> {
    B8(c.room) + B8(c.member) + B8(c.memberGeneration) + B8(c.policyRevision) + B8(c.marketGeneration) + B8(c.nonce)
    + B8(c.issuedSlot) + B8(c.expiresSlot) + B16(c.minExecutionPrice) + B16(c.maxExecutionPrice)
  }

  function BOpenIntent(i: OpenIntent): seq<u8> {
    BConsent(i.consent) + B8(i.market) + B8(i.cell) + B8(i.cellPolicyRevision) + [if i.side.Long? then 0 else 1]
    + B16(i.sizeBase) + B16(i.collateral) + B16(i.profitCap) + B16(i.maxFee) + B8(i.maturitySlot)
  }

  function BCloseIntent(i: CloseIntent): seq<u8> {
    BConsent(i.consent) + B8(i.position)
  }

  function BAction(a: Action): seq<u8> {
    match a
    case ActRegisterMarket(market) => [0] + BMarket(market)
    case ActAddCell(cell, policy) => [1] + (B8(cell) + BUnderwriting(policy))
    case ActChangeCellPolicy(cell, revision, policy) => [2] + (B8(cell) + B8(revision) + BUnderwriting(policy))
    case ActAddMember(member, delegate, policy) => [3] + (B8(member) + BOption(delegate) + BPolicy(policy))
    case ActChangePolicy(member, revision, delegate, policy) =>
      [4] + (B8(member) + B8(revision) + BOption(delegate) + BPolicy(policy))
    case ActContribute(member, amount) => [5] + (B8(member) + B16(amount))
    case ActFundCell(cell, amount) => [6] + (B8(cell) + B16(amount))
    case ActWithdraw(member, amount) => [7] + (B8(member) + B16(amount))
    case ActWithdrawCell(cell, amount) => [8] + (B8(cell) + B16(amount))
    case ActOpen(intent) => [9] + BOpenIntent(intent)
    case ActClose(intent) => [10] + BCloseIntent(intent)
    case ActRecordTerminalObservation(position, observation) => [11] + (B8(position) + BObservation(observation))
    case ActCancelPending => [12]
  }

  function BIntent(i: Intent): seq<u8> {
    i.genesisHash + BActor(i.actor) + B8(i.sequence) + B8(i.notBeforeSlot) + B8(i.expiresSlot)
    + BOption(i.authorizationRevision) + BAction(i.action)
  }

  function BEnvelope(e: SignedEnvelope): seq<u8> {
    BIntent(e.intent) + e.signature
  }

  function BGenesis(g: Genesis): seq<u8> {
    g.domain.network + g.domain.deployment + B8(g.domain.room) + B8(g.administrator)
    + (B4(|g.principals|) + BAll((b: PrincipalBinding) => BBinding(b), g.principals))
  }

  function BOpenReceipt(r: OpenReceipt): seq<u8> {
    B8(r.position) + B8(r.owner) + B8(r.backingOwner) + BOpenIntent(r.intent) + BPolicy(r.policy)
        + BUnderwriting(r.cellPolicy)
    + BMarket(r.market) + BObservation(r.observation) + B8(r.executedSlot) + B16(r.entryNotional) + B16(r.fee)
        + B16(r.maximumPayout)
  }

  function BCloseReceipt(r: CloseReceipt): seq<u8> {
    B8(r.position) + B8(r.member) + B8(r.owner) + B8(r.cell) + B8(r.policyRevisionAtOpen) + B8(r.marketGeneration)
    + BObservation(r.observation) + B8(r.executedSlot) + B16(r.payout) + B16(r.realizedLoss) + B16(r.releasedReserve)
  }

  function BOutcome(o: Outcome): seq<u8> {
    match o
    case RegisteredMarket(market, generation) => [0] + (B8(market) + B8(generation))
    case AddedCell(cell) => [1] + B8(cell)
    case ChangedCellPolicy(cell, revision) => [2] + (B8(cell) + B8(revision))
    case RecordedTerminalObservation(observation) => [3] + BObservation(observation)
    case AddedMember(member) => [4] + B8(member)
    case ChangedPolicy(member, revision) => [5] + (B8(member) + B8(revision))
    case Contributed(member, amount) => [6] + (B8(member) + B16(amount))
    case FundedCell(cell, amount) => [7] + (B8(cell) + B16(amount))
    case Withdrawn(member, owner, amount) => [8] + (B8(member) + B8(owner) + B16(amount))
    case WithdrawnCell(cell, owner, amount) => [9] + (B8(cell) + B8(owner) + B16(amount))
    case Opened(receipt) => [10] + BOpenReceipt(receipt)
    case Closed(receipt) => [11] + BCloseReceipt(receipt)
  }

  function BContext(c: ExecutionContext): seq<u8> {
    B8(c.nowSlot) + if c.observation.None? then [0] else [1] + BObservation(c.observation.value)
  }

  function BEvidence(e: Evidence): seq<u8> {
    match e
    case Signed(envelope, context) => [0] + (BEnvelope(envelope) + BContext(context))
    case Matured(position, now) => [1] + (B8(position) + B8(now))
  }

  function BAuthOutcome(o: AuthOutcome): seq<u8> {
    match o
    case Kernel(outcome) => [0] + BOutcome(outcome)
    case NonceAdvanced(actor, next) => [1] + (BActor(actor) + B8(next))
  }

  function BRecord(r: AuthenticatedRecord): seq<u8> {
    B8(r.index) + r.previousHash + BEvidence(r.evidence) + BAuthOutcome(r.outcome) + r.hash
  }

  // ---- Structs ----

  lemma ObservationBytes(o: Observation)
    ensures ObservationCodec().enc(o) == BObservation(o)
  {
    hide Quad, LeEnc;
    QuadBytes(U64(), U64(), U128(), U64(), (o.market, (o.generation, (o.price, o.publishedSlot))));
  }

  lemma MarketBytes(m: Market)
    ensures MarketCodec().enc(m) == BMarket(m)
  {
    hide Quad, LeEnc;
    QuadBytes(U64(), U64(), U8(), U128(), (m.id, (m.generation, (m.assetDecimals, m.minPrice))));
    QuadBytes(U128(), U64(), U64(), U16(), (m.maxPrice, (m.maxOracleAgeSlots, (m.maxPositionLifetimeSlots, m.feeBps))));
    var x := B8(m.id) + B8(m.generation) + [m.assetDecimals] + B16(m.minPrice);
    Flat4(x, B16(m.maxPrice), B8(m.maxOracleAgeSlots), B8(m.maxPositionLifetimeSlots), B2(m.feeBps));
  }

  lemma Flat4(x: seq<u8>, a: seq<u8>, b: seq<u8>, c: seq<u8>, d: seq<u8>)
    ensures x + (a + b + c + d) == x + a + b + c + d
  {
  }

  lemma Flat3(x: seq<u8>, a: seq<u8>, b: seq<u8>, c: seq<u8>)
    ensures x + (a + b + c) == x + a + b + c
  {
  }

  lemma Flat2(x: seq<u8>, a: seq<u8>, b: seq<u8>)
    ensures x + (a + b) == x + a + b
  {
  }

  lemma PolicyBytes(p: Policy)
    ensures PolicyCodec().enc(p) == BPolicy(p)
  {
    hide Quad, Triple, LeEnc, EncAll, BAll, Ascending, Canonical, IdSetCodec, BIds;
    QuadBytes(U128(), U128(), IdSetCodec(), IdSetCodec(),
              (p.contributionLimit, (p.lossLimit, (p.allowedMarkets, p.allowedCells))));
    QuadBytes(U32(), U128(), U128(), U16(), (p.maxLeverageBps,
                                             (p.maxPositionNotional, (p.maxTotalNotional, p.maxOpenPositions))));
    TripleBytes(Quad(U128(), U128(), IdSetCodec(), IdSetCodec()), Quad(U32(), U128(), U128(), U16()),
                Pair(U16(), U64()),
                ((p.contributionLimit, (p.lossLimit, (p.allowedMarkets, p.allowedCells))),
                 ((p.maxLeverageBps, (p.maxPositionNotional, (p.maxTotalNotional, p.maxOpenPositions))),
                  (p.maxFeeBps, p.maxIntentLifetimeSlots))));
    IdsBytes(p.allowedMarkets);
    IdsBytes(p.allowedCells);
    var x := B16(p.contributionLimit) + B16(p.lossLimit) + BIds(p.allowedMarkets) + BIds(p.allowedCells);
    Flat4(x, B4(p.maxLeverageBps), B16(p.maxPositionNotional), B16(p.maxTotalNotional), B2(p.maxOpenPositions));
    Flat2(x + B4(p.maxLeverageBps) + B16(p.maxPositionNotional) + B16(p.maxTotalNotional) + B2(p.maxOpenPositions),
          B2(p.maxFeeBps), B8(p.maxIntentLifetimeSlots));
  }

  /** A codec whose elements are the given bytes writes lists that are. */
  lemma {:induction false} AllBytes<T(!new)>(c: Codec<T>, element: T -> seq<u8>, s: seq<T>)
    requires forall v: T :: c.enc(v) == element(v)
    ensures EncAll(c, s) == BAll(element, s)
  {
    if s != [] {
      AllBytes(c, element, s[1..]);
    }
  }

  lemma IdsBytes(s: IdSet)
    ensures IdSetCodec().enc(s) == BIds(s)
  {
    hide LeEnc, EncAll, BAll, Ascending, Canonical;
    AllBytes(U64(), (id: u64) => B8(id), s);
  }

  lemma AdmissionBytes(a: Admission)
    ensures AdmissionCodec().enc(a) == BAdmission(a)
  {
    hide LeEnc, Triple;
    TripleBytes(U64(), U64(), U64(), (a.member, (a.owner, a.generation)));
  }

  lemma GenerationBytes(m: MarketGeneration)
    ensures MarketGenerationCodec().enc(m) == BGeneration(m)
  {
    hide LeEnc;
  }

  lemma AdmissionsBytes(s: AdmissionSet)
    ensures AdmissionSetCodec().enc(s) == BAdmissions(s)
  {
    hide LeEnc, EncAll, BAll, Ascending, Canonical, AdmissionCodec, BAdmission;
    forall a: Admission ensures AdmissionCodec().enc(a) == BAdmission(a) {
      AdmissionBytes(a);
    }
    AllBytes(AdmissionCodec(), (a: Admission) => BAdmission(a), s);
  }

  lemma GenerationsBytes(s: MarketGenerationSet)
    ensures MarketGenerationSetCodec().enc(s) == BGenerations(s)
  {
    hide LeEnc, EncAll, BAll, Ascending, Canonical, MarketGenerationCodec, BGeneration;
    forall m: MarketGeneration ensures MarketGenerationCodec().enc(m) == BGeneration(m) {
      GenerationBytes(m);
    }
    AllBytes(MarketGenerationCodec(), (m: MarketGeneration) => BGeneration(m), s);
  }

  lemma UnderwritingBytes(p: UnderwritingPolicy)
    ensures UnderwritingCodec().enc(p) == BUnderwriting(p)
  {
    hide Quad, Triple, LeEnc, EncAll, Ascending, Canonical, AdmissionSetCodec, MarketGenerationSetCodec, BAdmissions,
         BGenerations;
    QuadBytes(AdmissionSetCodec(), MarketGenerationSetCodec(), U128(), U128(),
              (p.allowedMembers, (p.allowedMarketGenerations, (p.maxPositionNotional, p.maxProfitCap))));
    TripleBytes(U32(), U128(), U16(), (p.maxLeverageBps, (p.maxTotalReserved, p.minFeeBps)));
    AdmissionsBytes(p.allowedMembers);
    GenerationsBytes(p.allowedMarketGenerations);
    var x := BAdmissions(p.allowedMembers) + BGenerations(p.allowedMarketGenerations) + B16(p.maxPositionNotional)
        + B16(p.maxProfitCap);
    Flat3(x, B4(p.maxLeverageBps), B16(p.maxTotalReserved), B2(p.minFeeBps));
  }

  lemma ConsentBytes(c: Consent)
    ensures ConsentCodec().enc(c) == BConsent(c)
  {
    hide Quad, Triple, LeEnc, Canonical;
    var (x, y) := ((c.room, (c.member, (c.memberGeneration, c.policyRevision))),
                   (c.marketGeneration, (c.nonce, (c.issuedSlot, c.expiresSlot))));
    QuadBytes(U64(), U64(), U64(), U64(), x);
    QuadBytes(U64(), U64(), U64(), U64(), y);
    TripleBytes(Quad(U64(), U64(), U64(), U64()), Quad(U64(), U64(), U64(), U64()), Pair(U128(), U128()),
                (x, (y, (c.minExecutionPrice, c.maxExecutionPrice))));
    var head := B8(c.room) + B8(c.member) + B8(c.memberGeneration) + B8(c.policyRevision);
    Flat4(head, B8(c.marketGeneration), B8(c.nonce), B8(c.issuedSlot), B8(c.expiresSlot));
    Flat2(head + B8(c.marketGeneration) + B8(c.nonce) + B8(c.issuedSlot) + B8(c.expiresSlot),
          B16(c.minExecutionPrice), B16(c.maxExecutionPrice));
  }

  lemma SideBytes(s: Side)
    ensures SideCodec().enc(s) == [if s.Long? then 0 else 1]
  {
  }

  lemma OpenIntentBytes(i: OpenIntent)
    ensures OpenIntentCodec().enc(i) == BOpenIntent(i)
  {
    hide Quad, Triple, LeEnc, Canonical, ConsentCodec, SideCodec, BConsent;
    var (x, y) := ((i.consent, (i.market, (i.cell, i.cellPolicyRevision))),
                   (i.side, (i.sizeBase, (i.collateral, i.profitCap))));
    QuadBytes(ConsentCodec(), U64(), U64(), U64(), x);
    QuadBytes(SideCodec(), U128(), U128(), U128(), y);
    TripleBytes(Quad(ConsentCodec(), U64(), U64(), U64()), Quad(SideCodec(), U128(), U128(), U128()),
                Pair(U128(), U64()),
                (x, (y, (i.maxFee, i.maturitySlot))));
    ConsentBytes(i.consent);
    SideBytes(i.side);
    var head := BConsent(i.consent) + B8(i.market) + B8(i.cell) + B8(i.cellPolicyRevision);
    Flat4(head, [if i.side.Long? then 0 else 1], B16(i.sizeBase), B16(i.collateral), B16(i.profitCap));
    Flat2(head + [if i.side.Long? then 0 else 1] + B16(i.sizeBase) + B16(i.collateral) + B16(i.profitCap),
          B16(i.maxFee), B8(i.maturitySlot));
  }

  lemma CloseIntentBytes(i: CloseIntent)
    ensures CloseIntentCodec().enc(i) == BCloseIntent(i)
  {
    hide LeEnc, Canonical, ConsentCodec, BConsent;
    ConsentBytes(i.consent);
  }

  // ---- Actions, intents and envelopes ----

  lemma ActorBytes(a: Actor)
    ensures ActorCodec().enc(a) == BActor(a)
  {
    hide LeEnc;
  }

  lemma OptionBytes(o: Option<u64>)
    ensures Optional(U64()).enc(o) == BOption(o)
  {
    hide LeEnc;
  }

  lemma PolicyActionBytes(a: Action)
    requires a.ActAddMember? || a.ActChangePolicy?
    ensures ActionCodec().enc(a) == BAction(a)
  {
    hide LeEnc, Canonical, Good, Pair, Triple, Quad, Optional, MarketCodec, UnderwritingCodec, PolicyCodec,
         ObservationCodec, OpenIntentCodec, CloseIntentCodec, BPolicy, BOption, ActRegisterMarketCase, ActAddCellCase,
         ActChangeCellPolicyCase, ActContributeCase, ActFundCellCase, ActWithdrawCase, ActWithdrawCellCase,
         ActOpenCase, ActCloseCase, ActRecordTerminalObservationCase, ActCancelPendingCase;
    PolicyBytes(a.policy);
    OptionBytes(a.delegate);
    if a.ActAddMember? {
      TripleBytes(U64(), Optional(U64()), PolicyCodec(), (a.member, (a.delegate, a.policy)));
    } else {
      QuadBytes(U64(), U64(), Optional(U64()), PolicyCodec(), (a.member, (a.expectedRevision, (a.delegate, a.policy))));
    }
  }

  lemma CellActionBytes(a: Action)
    requires a.ActAddCell? || a.ActChangeCellPolicy?
    ensures ActionCodec().enc(a) == BAction(a)
  {
    hide LeEnc, Canonical, Good, Triple, Quad, Optional, MarketCodec, UnderwritingCodec, PolicyCodec,
         ObservationCodec, OpenIntentCodec, CloseIntentCodec, BUnderwriting, ActRegisterMarketCase, ActAddMemberCase,
         ActChangePolicyCase, ActContributeCase, ActFundCellCase, ActWithdrawCase, ActWithdrawCellCase, ActOpenCase,
         ActCloseCase, ActRecordTerminalObservationCase, ActCancelPendingCase;
    UnderwritingBytes(a.underwriting);
    if a.ActChangeCellPolicy? {
      TripleBytes(U64(), U64(), UnderwritingCodec(), (a.cell, (a.expectedRevision, a.underwriting)));
    }
  }

  lemma TradeActionBytes(a: Action)
    requires a.ActRegisterMarket? || a.ActOpen? || a.ActClose? || a.ActRecordTerminalObservation?
    ensures ActionCodec().enc(a) == BAction(a)
  {
    hide LeEnc, Canonical, Good, Triple, Quad, Optional, MarketCodec, UnderwritingCodec, PolicyCodec,
         ObservationCodec, OpenIntentCodec, CloseIntentCodec, BMarket, BObservation, BOpenIntent, BCloseIntent,
         ActAddCellCase, ActChangeCellPolicyCase, ActAddMemberCase, ActChangePolicyCase, ActContributeCase,
         ActFundCellCase, ActWithdrawCase, ActWithdrawCellCase, ActCancelPendingCase;
    match a
    case ActRegisterMarket(market) => MarketBytes(market);
    case ActOpen(intent) => OpenIntentBytes(intent);
    case ActClose(intent) => CloseIntentBytes(intent);
    case ActRecordTerminalObservation(_, observation) => ObservationBytes(observation);
  }

  lemma MoneyActionBytes(a: Action)
    requires a.ActContribute? || a.ActFundCell? || a.ActWithdraw? || a.ActWithdrawCell? || a.ActCancelPending?
    ensures ActionCodec().enc(a) == BAction(a)
  {
    hide LeEnc, Canonical, Good, Triple, Quad, Optional, MarketCodec, UnderwritingCodec, PolicyCodec,
         ObservationCodec, OpenIntentCodec, CloseIntentCodec, ActRegisterMarketCase, ActAddCellCase,
         ActChangeCellPolicyCase, ActAddMemberCase, ActChangePolicyCase, ActOpenCase, ActCloseCase,
         ActRecordTerminalObservationCase;
  }

  /** Every action is its declaration-order tag followed by its fields. */
  lemma ActionBytes(a: Action)
    ensures ActionCodec().enc(a) == BAction(a)
  {
    hide ActionCodec, BAction;
    if a.ActAddMember? || a.ActChangePolicy? {
      PolicyActionBytes(a);
    } else if a.ActAddCell? || a.ActChangeCellPolicy? {
      CellActionBytes(a);
    } else if a.ActContribute? || a.ActFundCell? || a.ActWithdraw? || a.ActWithdrawCell? || a.ActCancelPending? {
      MoneyActionBytes(a);
    } else {
      TradeActionBytes(a);
    }
  }

  lemma IntentBytes(i: Intent)
    ensures IntentCodec().enc(i) == BIntent(i)
  {
    hide LeEnc, Canonical, Triple, Quad, Optional, ActorCodec, ActionCodec, BActor, BAction, BOption;
    ActionCodecCanonical();
    var (x, y) := ((i.genesisHash, (i.actor, (i.sequence, i.notBeforeSlot))),
                   (i.expiresSlot, (i.authorizationRevision, i.action)));
    QuadBytes(Bytes32(), ActorCodec(), U64(), U64(), x);
    TripleBytes(U64(), Optional(U64()), ActionCodec(), y);
    ActorBytes(i.actor);
    OptionBytes(i.authorizationRevision);
    ActionBytes(i.action);
    Flat3(i.genesisHash + BActor(i.actor) + B8(i.sequence) + B8(i.notBeforeSlot),
          B8(i.expiresSlot), BOption(i.authorizationRevision), BAction(i.action));
  }

  /** What a client sends is its intent's bytes followed by its signature. */
  lemma EnvelopeBytes(e: SignedEnvelope)
    ensures EnvelopeCodec().enc(e) == BEnvelope(e)
  {
    hide LeEnc, Canonical, IntentCodec, BIntent;
    IntentBytes(e.intent);
  }

  // ---- Genesis and records ----

  lemma BindingBytes(b: PrincipalBinding)
    ensures BindingCodec().enc(b) == BBinding(b)
  {
    hide LeEnc, Canonical, ActorCodec, BActor;
    ActorBytes(b.actor);
  }

  lemma GenesisBytes(g: Genesis)
    ensures GenesisCodec().enc(g) == BGenesis(g)
  {
    hide LeEnc, Canonical, Triple, EncAll, BAll, BindingCodec, BBinding;
    forall b: PrincipalBinding ensures BindingCodec().enc(b) == BBinding(b) {
      BindingBytes(b);
    }
    AllBytes(BindingCodec(), (b: PrincipalBinding) => BBinding(b), g.principals);
    var domain := (g.domain.network, (g.domain.deployment, g.domain.room));
    TripleBytes(Bytes32(), Bytes32(), U64(), domain);
    TripleBytes(Triple(Bytes32(), Bytes32(), U64()), U64(), VecOf(BindingCodec()),
                (domain, (g.administrator, g.principals)));
  }

  lemma OpenReceiptBytes(r: OpenReceipt)
    ensures OpenReceiptCodec().enc(r) == BOpenReceipt(r)
  {
    hide LeEnc, Canonical, Triple, Quad, OpenIntentCodec, PolicyCodec, UnderwritingCodec, MarketCodec,
         ObservationCodec, BOpenIntent, BPolicy, BUnderwriting, BMarket, BObservation;
    var (x, y, z) := ((r.position, (r.owner, (r.backingOwner, r.intent))),
                      (r.policy, (r.cellPolicy, (r.market, r.observation))),
                      (r.executedSlot, (r.entryNotional, (r.fee, r.maximumPayout))));
    QuadBytes(U64(), U64(), U64(), OpenIntentCodec(), x);
    QuadBytes(PolicyCodec(), UnderwritingCodec(), MarketCodec(), ObservationCodec(), y);
    QuadBytes(U64(), U128(), U128(), U128(), z);
    TripleBytes(Quad(U64(), U64(), U64(), OpenIntentCodec()),
                Quad(PolicyCodec(), UnderwritingCodec(), MarketCodec(), ObservationCodec()),
                Quad(U64(), U128(), U128(), U128()), (x, (y, z)));
    OpenIntentBytes(r.intent);
    PolicyBytes(r.policy);
    UnderwritingBytes(r.cellPolicy);
    MarketBytes(r.market);
    ObservationBytes(r.observation);
    var head := B8(r.position) + B8(r.owner) + B8(r.backingOwner) + BOpenIntent(r.intent);
    Flat4(head, BPolicy(r.policy), BUnderwriting(r.cellPolicy), BMarket(r.market), BObservation(r.observation));
    Flat4(head + BPolicy(r.policy) + BUnderwriting(r.cellPolicy) + BMarket(r.market) + BObservation(r.observation),
          B8(r.executedSlot), B16(r.entryNotional), B16(r.fee), B16(r.maximumPayout));
  }

  lemma CloseReceiptBytes(r: CloseReceipt)
    ensures CloseReceiptCodec().enc(r) == BCloseReceipt(r)
  {
    hide LeEnc, Canonical, Triple, Quad, ObservationCodec, BObservation;
    var (x, y, z) := ((r.position, (r.member, (r.owner, r.cell))),
                      (r.policyRevisionAtOpen, (r.marketGeneration, (r.observation, r.executedSlot))),
                      (r.payout, (r.realizedLoss, r.releasedReserve)));
    QuadBytes(U64(), U64(), U64(), U64(), x);
    QuadBytes(U64(), U64(), ObservationCodec(), U64(), y);
    TripleBytes(U128(), U128(), U128(), z);
    TripleBytes(Quad(U64(), U64(), U64(), U64()), Quad(U64(), U64(), ObservationCodec(), U64()),
                Triple(U128(), U128(), U128()), (x, (y, z)));
    ObservationBytes(r.observation);
    var head := B8(r.position) + B8(r.member) + B8(r.owner) + B8(r.cell);
    Flat4(head, B8(r.policyRevisionAtOpen), B8(r.marketGeneration), BObservation(r.observation), B8(r.executedSlot));
    Flat3(head + B8(r.policyRevisionAtOpen) + B8(r.marketGeneration) + BObservation(r.observation) + B8(r.executedSlot),
          B16(r.payout), B16(r.realizedLoss), B16(r.releasedReserve));
  }

  lemma ReceiptOutcomeBytes(o: Outcome)
    requires o.Opened? || o.Closed? || o.RecordedTerminalObservation?
    ensures OutcomeCodec().enc(o) == BOutcome(o)
  {
    hide LeEnc, Canonical, Good, Pair, Triple, U64, U128, ObservationCodec, OpenReceiptCodec, CloseReceiptCodec,
         BOpenReceipt, BCloseReceipt, BObservation, RegisteredMarketCase, AddedCellCase, ChangedCellPolicyCase,
         AddedMemberCase, ChangedPolicyCase, ContributedCase, FundedCellCase, WithdrawnCase, WithdrawnCellCase;
    match o
    case Opened(receipt) => OpenReceiptBytes(receipt);
    case Closed(receipt) => CloseReceiptBytes(receipt);
    case RecordedTerminalObservation(observation) => ObservationBytes(observation);
  }

  lemma PlainOutcomeBytes(o: Outcome)
    requires !o.Opened? && !o.Closed? && !o.RecordedTerminalObservation?
    ensures OutcomeCodec().enc(o) == BOutcome(o)
  {
    hide LeEnc, Canonical, Good, Triple, ObservationCodec, OpenReceiptCodec, CloseReceiptCodec,
         RecordedTerminalObservationCase, OpenedCase, ClosedCase;
    match o
    case Withdrawn(member, owner, amount) => TripleBytes(U64(), U64(), U128(), (member, (owner, amount)));
    case WithdrawnCell(cell, owner, amount) => TripleBytes(U64(), U64(), U128(), (cell, (owner, amount)));
    case _ =>
  }

  lemma EvidenceBytes(e: Evidence)
    ensures EvidenceCodec().enc(e) == BEvidence(e)
  {
    hide LeEnc, Canonical, Good, EnvelopeCodec, ObservationCodec, BEnvelope, BObservation;
    if e.Signed? {
      EnvelopeBytes(e.envelope);
      if e.context.observation.Some? {
        ObservationBytes(e.context.observation.value);
      }
    }
  }

  lemma AuthOutcomeBytes(o: AuthOutcome)
    ensures AuthOutcomeCodec().enc(o) == BAuthOutcome(o)
  {
    hide LeEnc, Canonical, Good, OutcomeCodec, ActorCodec, BOutcome, BActor;
    OutcomeCodecCanonical();
    match o
    case Kernel(outcome) =>
      if outcome.Opened? || outcome.Closed? || outcome.RecordedTerminalObservation? {
        ReceiptOutcomeBytes(outcome);
      } else {
        PlainOutcomeBytes(outcome);
      }
    case NonceAdvanced(actor, _) => ActorBytes(actor);
  }

  /** A record is its index, previous hash, evidence, outcome and hash. */
  lemma RecordBytes(r: AuthenticatedRecord)
    ensures RecordCodec().enc(r) == BRecord(r)
    ensures BodyCodec().enc(BodyOf(r)) + r.hash == BRecord(r)
  {
    hide LeEnc, Canonical, Quad, EvidenceCodec, AuthOutcomeCodec, BEvidence, BAuthOutcome;
    EvidenceCodecCanonical();
    AuthOutcomeCodecCanonical();
    QuadBytes(U64(), Bytes32(), EvidenceCodec(), AuthOutcomeCodec(), BodyOf(r));
    EvidenceBytes(r.evidence);
    AuthOutcomeBytes(r.outcome);
  }
}

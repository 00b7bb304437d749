/** How long the gateway's messages are, and that what policies of bounded size can produce fits the frame. */
module WireSizes {
  import opened Numbers
  import opened RoomModel
  import opened Codec
  import opened Wire
  import opened WireReference
  import opened Gateway

  /** Neither of a member policy's sets exceeds the gateway's cap. */
  predicate SmallPolicy(p: Policy) {
    |p.allowedMarkets| <= MAX_POLICY_ENTRIES && |p.allowedCells| <= MAX_POLICY_ENTRIES
  }

  /** Neither of a cell policy's sets exceeds the gateway's cap. */
  predicate SmallUnderwriting(p: UnderwritingPolicy) {
    |p.allowedMembers| <= MAX_POLICY_ENTRIES && |p.allowedMarketGenerations| <= MAX_POLICY_ENTRIES
  }

  predicate SmallAction(a: Action) {
    match a
    case ActAddCell(_, policy) => SmallUnderwriting(policy)
    case ActChangeCellPolicy(_, _, policy) => SmallUnderwriting(policy)
    case ActAddMember(_, _, policy) => SmallPolicy(policy)
    case ActChangePolicy(_, _, _, policy) => SmallPolicy(policy)
    case _ => true
  }

  predicate SmallOutcome(o: Outcome) {
    o.Opened? ==> SmallPolicy(o.receipt.policy) && SmallUnderwriting(o.receipt.cellPolicy)
  }

  // ---- Lengths ----

  lemma {:induction false} AllLength<T>(element: T -> seq<u8>, width: nat, s: seq<T>)
    requires forall x: T :: |element(x)| == width
    ensures |BAll(element, s)| == width * |s|
  {
    if s != [] {
      AllLength(element, width, s[1..]);
    }
  }

  lemma PolicyLength(p: Policy)
    requires SmallPolicy(p)
    ensures |BPolicy(p)| <= 1_112
  {
    hide LeEnc, BAll;
    AllLength((id: u64) => B8(id), 8, p.allowedMarkets);
    AllLength((id: u64) => B8(id), 8, p.allowedCells);
  }

  lemma UnderwritingLength(p: UnderwritingPolicy)
    requires SmallUnderwriting(p)
    ensures |BUnderwriting(p)| <= 2_622
  {
    hide LeEnc, BAll;
    AllLength((a: Admission) => BAdmission(a), 24, p.allowedMembers);
    AllLength((m: MarketGeneration) => BGeneration(m), 16, p.allowedMarketGenerations);
  }

  lemma ActionLength(a: Action)
    requires SmallAction(a)
    ensures |BAction(a)| <= 2_639
  {
    hide LeEnc, BPolicy, BUnderwriting, BMarket, BObservation, BOpenIntent, BCloseIntent;
    match a
    case ActRegisterMarket(market) => MarketLength(market);
    case ActAddCell(_, policy) => UnderwritingLength(policy);
    case ActChangeCellPolicy(_, _, policy) => UnderwritingLength(policy);
    case ActAddMember(_, _, policy) => PolicyLength(policy);
    case ActChangePolicy(_, _, _, policy) => PolicyLength(policy);
    case ActOpen(intent) => OpenIntentLength(intent);
    case ActClose(intent) => CloseIntentLength(intent);
    case ActRecordTerminalObservation(_, observation) => ObservationLength(observation);
    case _ =>
  }

  lemma MarketLength(m: Market)
    ensures |BMarket(m)| == 67
  {
    hide LeEnc;
  }

  lemma ObservationLength(o: Observation)
    ensures |BObservation(o)| == 40
  {
    hide LeEnc;
  }

  lemma OpenIntentLength(i: OpenIntent)
    ensures |BOpenIntent(i)| == 193
  {
    hide LeEnc;
  }

  lemma CloseIntentLength(i: CloseIntent)
    ensures |BCloseIntent(i)| == 104
  {
    hide LeEnc;
  }

  lemma EnvelopeLength(e: SignedEnvelope)
    requires SmallAction(e.intent.action)
    ensures |BEnvelope(e)| <= 2_777
  {
    hide LeEnc, BAction;
    ActionLength(e.intent.action);
  }

  lemma OpenReceiptLength(r: OpenReceipt)
    requires SmallPolicy(r.policy) && SmallUnderwriting(r.cellPolicy)
    ensures |BOpenReceipt(r)| <= 4_114
  {
    hide LeEnc, BPolicy, BUnderwriting, BMarket, BObservation, BOpenIntent;
    PolicyLength(r.policy);
    UnderwritingLength(r.cellPolicy);
    MarketLength(r.market);
    ObservationLength(r.observation);
    OpenIntentLength(r.intent);
  }

  lemma CloseReceiptLength(r: CloseReceipt)
    ensures |BCloseReceipt(r)| == 144
  {
    hide LeEnc, BObservation;
    ObservationLength(r.observation);
  }

  lemma OutcomeLength(o: Outcome)
    requires SmallOutcome(o)
    ensures |BOutcome(o)| <= 4_115
  {
    hide LeEnc, BOpenReceipt, BCloseReceipt, BObservation;
    match o
    case RecordedTerminalObservation(observation) => ObservationLength(observation);
    case Opened(receipt) => OpenReceiptLength(receipt);
    case Closed(receipt) => CloseReceiptLength(receipt);
    case _ =>
  }

  /** The record of a signed envelope fits the frame when its policies, and its receipt's, are within the caps. */
  lemma SignedRecordFits(r: AuthenticatedRecord)
    requires r.evidence.Signed? && SmallAction(r.evidence.envelope.intent.action)
    requires r.outcome.Kernel? ==> SmallOutcome(r.outcome.outcome)
    ensures Encode(BodyCodec(), BodyOf(r)).Success? && Encode(RecordCodec(), r).Success?
  {
    hide LeEnc, BEnvelope, BOutcome, BObservation, BodyCodec, RecordCodec, BActor;
    RecordBytes(r);
    EnvelopeLength(r.evidence.envelope);
    if r.evidence.context.observation.Some? {
      ObservationLength(r.evidence.context.observation.value);
    }
    match r.outcome
    case Kernel(outcome) => OutcomeLength(outcome);
    case NonceAdvanced(actor, _) => ActorLength(actor);
  }

  lemma ActorLength(a: Actor)
    ensures |BActor(a)| == 9
  {
    hide LeEnc;
  }
}

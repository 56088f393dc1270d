/** Communal claims: the record, its trust lattice, its transitions and the promotion gate.
    Digests and identity derivations are taken as injective: a statement digest is the
    statement, and the derivation of claim ids is a parameter of the store. */
module ClaimModel {
  import opened Common

  type ClaimId = int
  type OperationId = int
  type Node = int
  type Predicate = int
  type Principal = int
  type Artifact = int
  type Timestamp = nat

  const CLAIM_OBJECT_INLINE_MAX_BYTES: nat := 4096
  const CLAIM_MAX_EVIDENCE_ARTIFACTS: nat := 16
  const CLAIM_MAX_ACL_CAPABILITIES: nat := 16
  const CLAIM_MAX_TRUST_TRANSITIONS: nat := 32
  const CLAIM_TRANSITION_REASON_MAX_LENGTH: nat := 512
  const AGENT_IDENTITY_MAX_LENGTH: nat := 256
  const AGENT_MEMORY_EMBEDDING_MODEL_MAX_LENGTH: nat := 128
  const MAX_CONFIDENCE_BPS: nat := 10000

  datatype Trust = Proposed | Verified | Disputed | Retracted

  /** The legal transition table. */
  predicate MayTransition(from: Trust, to: Trust) {
    match (from, to)
    case (Proposed, Verified) => true
    case (Proposed, Disputed) => true
    case (Proposed, Retracted) => true
    case (Verified, Disputed) => true
    case (Verified, Retracted) => true
    case (Disputed, Verified) => true
    case (Disputed, Retracted) => true
    case _ => false
  }

  datatype ClaimObject = NodeObject(node: Node) | ValueObject(content: seq<char>)

  function ObjectNode(obj: ClaimObject): Option<Node> {
    match obj
    case NodeObject(node) => Some(node)
    case ValueObject(_) => None
  }

  /** The canonical subject/predicate/object statement, standing for its own digest. */
  datatype Statement = Statement(subject: Node, relation: Predicate, obj: ClaimObject)

  datatype Provenance = Provenance(agent: int, goal: Option<int>, task: Option<int>, run: Option<int>,
                                   delegation: Option<int>, effect: Option<string>)

  datatype EmbeddingRef = EmbeddingRef(model: string, dimensions: nat)

  datatype Claim = Claim(
    claimId: ClaimId, operationId: OperationId,
    subject: Node, relation: Predicate, obj: ClaimObject, contentDigest: Statement,
    provenance: Provenance, evidence: seq<Artifact>, createdAt: Timestamp, confidenceBps: nat,
    classification: int, access: set<int>,
    trust: Trust, transitionCount: nat,
    embedding: Option<EmbeddingRef>, policy: Option<int>)

  datatype ClaimError =
    | ContentTooLarge | EvidenceOverflow | ConfidenceOutOfRange | ReferenceTooLong | AccessOverflow
    | InvalidEmbeddingRef | StatementDigestMismatch | TrustIncoherent
    | AppendNotProposed | AppendIdNotDerived | OperationConflict | AlreadyExists | NotFound
    | IllegalTransition | TransitionHistoryFull
    | PromotionGrantRequired | PromotionGrantKind | PromotionGrantScope | PromotionGrantRejected
    | Backend

  /** `Claim::validate`: the first bound or coherence rule the record breaks, if any. */
  function ValidationError(c: Claim): Option<ClaimError> {
    if c.obj.ValueObject? && |c.obj.content| > CLAIM_OBJECT_INLINE_MAX_BYTES then Some(ContentTooLarge)
    else if |c.evidence| > CLAIM_MAX_EVIDENCE_ARTIFACTS then Some(EvidenceOverflow)
    else if c.confidenceBps > MAX_CONFIDENCE_BPS then Some(ConfidenceOutOfRange)
    else if c.provenance.effect.Some? && |c.provenance.effect.value| > AGENT_IDENTITY_MAX_LENGTH then Some(ReferenceTooLong)
    else if |c.access| > CLAIM_MAX_ACL_CAPABILITIES then Some(AccessOverflow)
    else if c.embedding.Some? &&
            (c.embedding.value.model == "" || |c.embedding.value.model| > AGENT_MEMORY_EMBEDDING_MODEL_MAX_LENGTH
             || c.embedding.value.dimensions == 0) then Some(InvalidEmbeddingRef)
    else if c.contentDigest != Statement(c.subject, c.relation, c.obj) then Some(StatementDigestMismatch)
    else if (c.trust == Proposed) != (c.transitionCount == 0) then Some(TrustIncoherent)
    else None
  }

  /** `Claim::apply_transition`: the single legality enforcement point. */
  function ApplyTransition(c: Claim, to: Trust): Result<Claim, ClaimError> {
    if !MayTransition(c.trust, to) then Err(IllegalTransition)
    else if c.transitionCount >= CLAIM_MAX_TRUST_TRANSITIONS then Err(TransitionHistoryFull)
    else Ok(c.(trust := to, transitionCount := c.transitionCount + 1))
  }

  /** Everything about a claim except its trust status and transition count. */
  function Immutable(c: Claim): Claim {
    c.(trust := Proposed, transitionCount := 0)
  }

  // ----- The promotion gate -----

  datatype GrantKind = Approval | SecurityAuthorization | OtherCheckpoint

  datatype SafetyClass = NonIdempotent | OtherSafetyClass

  /** The digest input of one promotion, standing for its own digest. */
  datatype PromotionPayload = PromotionPayload(
    claim: ClaimId, from: Trust, obj: ClaimObject, ordinal: nat, relation: Predicate,
    scopeKey: string, subject: Node)

  datatype EffectBinding = EffectBinding(
    effectId: ClaimId, generation: nat, target: ClaimId, argumentDigest: PromotionPayload,
    safetyClass: SafetyClass, credentialBinding: Option<int>)

  datatype Grant = Grant(
    checkpointId: int, kind: GrantKind, tenant: string, binding: EffectBinding, cryptographic: bool,
    resolver: Principal, expiresAt: Timestamp, allowedUseCount: nat)

  datatype Receipt = Receipt(checkpointId: int, resolver: Principal, argumentDigest: PromotionPayload)

  datatype PromotionPolicy =
    | GateAll
    | GateMatching(classifications: set<int>, predicates: set<Predicate>)
    | Ungated

  datatype Scope = Scope(tenant: string, space: string)

  function RequiresGrant(policy: PromotionPolicy, c: Claim): bool {
    match policy
    case GateAll => true
    case Ungated => false
    case GateMatching(classifications, predicates) =>
      c.classification in classifications || c.relation in predicates
  }

  /** `claim_promotion_binding`; the effect id and target are injective in the claim id. */
  function PromotionBinding(scopeKey: string, c: Claim): EffectBinding {
    var ordinal := c.transitionCount + 1;
    EffectBinding(
      c.claimId, ordinal, c.claimId,
      PromotionPayload(c.claimId, c.trust, c.obj, ordinal, c.relation, scopeKey, c.subject),
      NonIdempotent, None)
  }

  /** `AgentCheckpointGrant::validate_for_binding` at attempt one. */
  predicate GrantCovers(g: Grant, binding: EffectBinding, now: Timestamp) {
    && g.cryptographic
    && g.binding == binding
    && now <= g.expiresAt
    && 1 <= g.allowedUseCount
  }

  /** `validate_promotion`: the receipt to stamp, nothing when no grant is needed, or the refusal. */
  function ValidatePromotion(tenant: string, scopeKey: string, c: Claim, policy: PromotionPolicy,
                             promotion: Option<Grant>, now: Timestamp): Result<Option<Receipt>, ClaimError>
  {
    if !RequiresGrant(policy, c) then Ok(None)
    else if promotion.None? then Err(PromotionGrantRequired)
    else
      var g := promotion.value;
      if g.kind == OtherCheckpoint then Err(PromotionGrantKind)
      else if g.tenant != tenant then Err(PromotionGrantScope)
      else
        var binding := PromotionBinding(scopeKey, c);
        if !GrantCovers(g, binding, now) then Err(PromotionGrantRejected)
        else Ok(Some(Receipt(g.checkpointId, g.resolver, binding.argumentDigest)))
  }

  // ----- Transition records -----

  datatype Transition = Transition(
    claimId: ClaimId, operationId: OperationId, ordinal: nat, from: Trust, to: Trust, actor: Principal,
    provenance: Option<Provenance>, reason: Option<string>, evidence: seq<Artifact>,
    gate: Option<Receipt>, occurredAt: Timestamp, policy: Option<int>)

  datatype TransitionRequest = TransitionRequest(
    claimId: ClaimId, operationId: OperationId, to: Trust, actor: Principal,
    provenance: Option<Provenance>, reason: Option<string>, evidence: seq<Artifact>,
    occurredAt: Timestamp, policy: Option<int>, promotion: Option<Grant>)

  datatype Outcome = Outcome(claim: Claim, transition: Transition)

  /** What one transition call computes from the claim it read: legality, then the gate, then
      the record's own bounds.  Both backends run exactly this. */
  function Decide(tenant: string, scopeKey: string, c: Claim, request: TransitionRequest,
                  policy: PromotionPolicy, now: Timestamp): Result<Outcome, ClaimError>
  {
    match ApplyTransition(c, request.to)
    case Err(error) => Err(error)
    case Ok(updated) =>
      var gate := if request.to == Verified
                  then ValidatePromotion(tenant, scopeKey, c, policy, request.promotion, now)
                  else Ok(None);
      if gate.Err? then Err(gate.error)
      else if request.reason.Some? && |request.reason.value| > CLAIM_TRANSITION_REASON_MAX_LENGTH
      then Err(ReferenceTooLong)
      else if |request.evidence| > CLAIM_MAX_EVIDENCE_ARTIFACTS then Err(EvidenceOverflow)
      else
        Ok(Outcome(updated,
                   Transition(c.claimId, request.operationId, updated.transitionCount, c.trust, request.to,
                              request.actor, request.provenance, request.reason, request.evidence,
                              gate.value, request.occurredAt, request.policy)))
  }
}

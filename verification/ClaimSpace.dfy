/** One knowledge space of the reference store: its claims, transition histories and operation
    ledger, and what every run of appends and transitions keeps. */
module ClaimSpace {
  import opened Common
  import opened ClaimModel
  import opened ScopeKey

  /** What one spent operation id resolved to. */
  datatype LedgerEntry = AppliedAppend(claim: Claim) | AppliedTransition(outcome: Outcome)

  datatype Space = Space(claims: map<ClaimId, Claim>, transitions: map<ClaimId, seq<Transition>>,
                         operations: map<OperationId, LedgerEntry>)

  const EMPTY_SPACE: Space := Space(map[], map[], map[])

  /** The derivation of a claim id from a scope key and an append operation id. */
  type Derivation = (string, OperationId) -> ClaimId

  /** The checks an append makes before it looks at the store. */
  function AppendDoor(derive: Derivation, scope: Scope, claim: Claim): Option<ClaimError> {
    if ValidationError(claim).Some? then ValidationError(claim)
    else if claim.trust != Proposed || claim.transitionCount != 0 then Some(AppendNotProposed)
    else if claim.claimId != derive(Key(scope), claim.operationId) then Some(AppendIdNotDerived)
    else None
  }

  /** `InMemoryKnowledgeGraphStore::append` on the addressed space. */
  function Append(derive: Derivation, scope: Scope, sp: Space, claim: Claim): (Space, Result<Claim, ClaimError>) {
    if AppendDoor(derive, scope, claim).Some? then (sp, Err(AppendDoor(derive, scope, claim).value))
    else if claim.operationId in sp.operations then
      match sp.operations[claim.operationId]
      case AppliedAppend(original) => (sp, Ok(original))
      case AppliedTransition(_) => (sp, Err(OperationConflict))
    else if claim.claimId in sp.claims then (sp, Err(AlreadyExists))
    else (sp.(claims := sp.claims[claim.claimId := claim],
              operations := sp.operations[claim.operationId := AppliedAppend(claim)]), Ok(claim))
  }

  function History(sp: Space, id: ClaimId): seq<Transition> {
    if id in sp.transitions then sp.transitions[id] else []
  }

  /** What an applied transition does to the space. */
  function Applied(sp: Space, operation: OperationId, outcome: Outcome): Space {
    var id := outcome.claim.claimId;
    Space(sp.claims[id := outcome.claim],
          sp.transitions[id := History(sp, id) + [outcome.transition]],
          sp.operations[operation := AppliedTransition(outcome)])
  }

  /** `InMemoryKnowledgeGraphStore::transition` on the addressed space. */
  function Transit(scope: Scope, sp: Space, request: TransitionRequest, policy: PromotionPolicy, now: Timestamp)
    : (Space, Result<Outcome, ClaimError>)
  {
    if request.operationId in sp.operations then
      match sp.operations[request.operationId]
      case AppliedTransition(original) => (sp, Ok(original))
      case AppliedAppend(_) => (sp, Err(OperationConflict))
    else if request.claimId !in sp.claims then (sp, Err(NotFound))
    else
      match Decide(scope.tenant, Key(scope), sp.claims[request.claimId], request, policy, now)
      case Err(error) => (sp, Err(error))
      case Ok(outcome) => (Applied(sp, request.operationId, outcome), Ok(outcome))
  }

  // ----- Calls and runs on one space -----

  datatype Call =
    | AppendCall(claim: Claim)
    | TransitionCall(request: TransitionRequest, policy: PromotionPolicy, now: Timestamp)

  datatype Answer = Appended(append: Result<Claim, ClaimError>) | Transited(transition: Result<Outcome, ClaimError>)

  function Serve(derive: Derivation, scope: Scope, sp: Space, call: Call): (Space, Answer) {
    match call
    case AppendCall(claim) =>
      var (after, answer) := Append(derive, scope, sp, claim);
      (after, Appended(answer))
    case TransitionCall(request, policy, now) =>
      var (after, answer) := Transit(scope, sp, request, policy, now);
      (after, Transited(answer))
  }

  /** The space after a sequence of calls served from `sp`. */
  function ServeAll(derive: Derivation, scope: Scope, sp: Space, calls: seq<Call>): Space {
    if calls == [] then sp
    else Serve(derive, scope, ServeAll(derive, scope, sp, calls[..|calls| - 1]), calls[|calls| - 1]).0
  }

  function SpaceAfter(derive: Derivation, scope: Scope, calls: seq<Call>): Space {
    ServeAll(derive, scope, EMPTY_SPACE, calls)
  }

  // ----- The invariant -----

  /** The trust status a history leads to. */
  function TrustAfter(history: seq<Transition>): Trust {
    if history == [] then Proposed else history[|history| - 1].to
  }

  /** Ordinals from one, legal moves, each from where the last one ended. */
  ghost predicate LegalChain(id: ClaimId, history: seq<Transition>) {
    forall i :: 0 <= i < |history| ==>
      && history[i].claimId == id && history[i].ordinal == i + 1
      && history[i].from == TrustAfter(history[..i])
      && MayTransition(history[i].from, history[i].to)
  }

  /** The claim as it stood after the first `n` transitions of its history. */
  function ClaimAt(original: Claim, history: seq<Transition>, n: nat): Claim
    requires n <= |history|
  {
    original.(trust := TrustAfter(history[..n]), transitionCount := n)
  }

  /** One stored claim: born `Proposed` under its derived id, moved only along a legal, bounded history. */
  ghost predicate ClaimOk(derive: Derivation, scope: Scope, sp: Space, id: ClaimId)
    requires id in sp.claims
  {
    var claim, history := sp.claims[id], History(sp, id);
    && claim.claimId == id && id == derive(Key(scope), claim.operationId)
    && claim.operationId in sp.operations
    && sp.operations[claim.operationId] == AppliedAppend(Immutable(claim))
    && |history| == claim.transitionCount <= CLAIM_MAX_TRUST_TRANSITIONS
    && LegalChain(id, history)
    && claim.trust == TrustAfter(history)
  }

  /** One ledger entry describes a claim, or a transition of a claim's history, that the space holds. */
  ghost predicate EntryOk(sp: Space, operation: OperationId)
    requires operation in sp.operations
  {
    match sp.operations[operation]
    case AppliedAppend(claim) =>
      claim.claimId in sp.claims && claim == Immutable(sp.claims[claim.claimId]) && claim.operationId == operation
    case AppliedTransition(outcome) =>
      var id, n := outcome.claim.claimId, outcome.transition.ordinal;
      && id in sp.claims && 1 <= n <= |History(sp, id)|
      && History(sp, id)[n - 1] == outcome.transition && outcome.transition.operationId == operation
      && outcome.claim == ClaimAt(sp.claims[id], History(sp, id), n)
  }

  ghost predicate SpaceInv(derive: Derivation, scope: Scope, sp: Space) {
    && (forall id :: id in sp.claims ==> ClaimOk(derive, scope, sp, id))
    && (forall id :: id in sp.transitions ==> id in sp.claims)
    && (forall operation :: operation in sp.operations ==> EntryOk(sp, operation))
  }

  lemma DecidedOutcome(tenant: string, key: string, c: Claim, request: TransitionRequest, policy: PromotionPolicy, now: Timestamp)
    ensures var decided := Decide(tenant, key, c, request, policy, now);
            decided.Ok? ==>
              var o := decided.value;
              && MayTransition(c.trust, request.to) && c.transitionCount < CLAIM_MAX_TRUST_TRANSITIONS
              && o.claim == c.(trust := request.to, transitionCount := c.transitionCount + 1)
              && o.transition.claimId == c.claimId && o.transition.operationId == request.operationId
              && o.transition.ordinal == c.transitionCount + 1
              && o.transition.from == c.trust && o.transition.to == request.to
  {
  }

  lemma ChainExtends(id: ClaimId, history: seq<Transition>, next: Transition)
    requires LegalChain(id, history)
    requires next.claimId == id && next.ordinal == |history| + 1
    requires next.from == TrustAfter(history) && MayTransition(next.from, next.to)
    ensures LegalChain(id, history + [next])
  {
    var after := history + [next];
    forall i | 0 <= i < |after|
      ensures after[i].claimId == id && after[i].ordinal == i + 1
              && after[i].from == TrustAfter(after[..i]) && MayTransition(after[i].from, after[i].to)
    {
      if i < |history| {
        assert after[i] == history[i] && after[..i] == history[..i];
      } else {
        assert after[..i] == history;
      }
    }
  }

  lemma AppendKeeps(derive: Derivation, scope: Scope, sp: Space, claim: Claim)
    requires SpaceInv(derive, scope, sp)
    ensures SpaceInv(derive, scope, Append(derive, scope, sp, claim).0)
  {
    var after := Append(derive, scope, sp, claim).0;
    if after != sp {
      var new' := claim.claimId;
      hide AppendDoor, LegalChain, TrustAfter;
      assert claim.trust == Proposed && claim.transitionCount == 0 && new' == derive(Key(scope), claim.operationId)
        by { DoorPassed(derive, scope, claim); }
      forall id | id in after.claims ensures ClaimOk(derive, scope, after, id) {
        if id == new' {
          assert new' !in sp.transitions;
          EmptyChain(id);
        } else {
          assert ClaimOk(derive, scope, sp, id);
        }
      }
      forall operation | operation in after.operations ensures EntryOk(after, operation) {
        if operation != claim.operationId {
          assert EntryOk(sp, operation);
        }
      }
    }
  }

  lemma DoorPassed(derive: Derivation, scope: Scope, claim: Claim)
    requires AppendDoor(derive, scope, claim).None?
    ensures claim.trust == Proposed && claim.transitionCount == 0 && claim.claimId == derive(Key(scope), claim.operationId)
  {
  }

  lemma EmptyChain(id: ClaimId)
    ensures LegalChain(id, []) && TrustAfter([]) == Proposed
  {
  }

  lemma AppliedKeeps(derive: Derivation, scope: Scope, sp: Space, operation: OperationId, outcome: Outcome)
    requires SpaceInv(derive, scope, sp) && operation !in sp.operations && outcome.claim.claimId in sp.claims
    requires Moves(sp.claims[outcome.claim.claimId], operation, outcome)
    ensures SpaceInv(derive, scope, Applied(sp, operation, outcome))
  {
    hide ClaimOk, EntryOk, Moves;
    var after := Applied(sp, operation, outcome);
    var moved := outcome.claim.claimId;
    assert ClaimOk(derive, scope, sp, moved);
    MovedClaimOk(derive, scope, sp, operation, outcome);
    forall id | id in after.claims && id != moved ensures ClaimOk(derive, scope, after, id) {
      OtherClaimOk(derive, scope, sp, operation, outcome, id);
    }
    forall entry | entry in after.operations ensures EntryOk(after, entry) {
      AppliedEntryOk(derive, scope, sp, operation, outcome, entry);
    }
  }

  /** The outcome is one legal, in-order move of the claim. */
  ghost predicate Moves(claim: Claim, operation: OperationId, outcome: Outcome) {
    && outcome.claim == claim.(trust := outcome.transition.to, transitionCount := claim.transitionCount + 1)
    && claim.transitionCount < CLAIM_MAX_TRUST_TRANSITIONS
    && outcome.transition.claimId == claim.claimId && outcome.transition.operationId == operation
    && outcome.transition.ordinal == claim.transitionCount + 1
    && outcome.transition.from == claim.trust && MayTransition(claim.trust, outcome.transition.to)
  }

  lemma OtherClaimOk(derive: Derivation, scope: Scope, sp: Space, operation: OperationId, outcome: Outcome, id: ClaimId)
    requires operation !in sp.operations && id in sp.claims && id != outcome.claim.claimId
    requires ClaimOk(derive, scope, sp, id)
    ensures ClaimOk(derive, scope, Applied(sp, operation, outcome), id)
  {
    hide LegalChain, TrustAfter;
    assert History(Applied(sp, operation, outcome), id) == History(sp, id);
  }

  lemma MovedClaimOk(derive: Derivation, scope: Scope, sp: Space, operation: OperationId, outcome: Outcome)
    requires operation !in sp.operations && outcome.claim.claimId in sp.claims
    requires ClaimOk(derive, scope, sp, outcome.claim.claimId)
    requires Moves(sp.claims[outcome.claim.claimId], operation, outcome)
    ensures ClaimOk(derive, scope, Applied(sp, operation, outcome), outcome.claim.claimId)
  {
    hide LegalChain;
    var id := outcome.claim.claimId;
    ChainExtends(id, History(sp, id), outcome.transition);
  }

  lemma AppliedEntryOk(derive: Derivation, scope: Scope, sp: Space, operation: OperationId, outcome: Outcome, entry: OperationId)
    requires SpaceInv(derive, scope, sp) && operation !in sp.operations && outcome.claim.claimId in sp.claims
    requires Moves(sp.claims[outcome.claim.claimId], operation, outcome)
    requires entry in sp.operations || entry == operation
    ensures EntryOk(Applied(sp, operation, outcome), entry)
  {
    hide LegalChain;
    var id := outcome.claim.claimId;
    assert ClaimOk(derive, scope, sp, id);
    var history := History(sp, id);
    var longer := history + [outcome.transition];
    if entry == operation {
      assert longer[..|longer|] == longer;
    } else {
      assert EntryOk(sp, entry);
      match sp.operations[entry] {
        case AppliedAppend(_) =>
        case AppliedTransition(earlier) =>
          if earlier.claim.claimId == id {
            var n := earlier.transition.ordinal;
            assert longer[..n] == history[..n];
          }
      }
    }
  }

  lemma TransitKeeps(derive: Derivation, scope: Scope, sp: Space, request: TransitionRequest, policy: PromotionPolicy, now: Timestamp)
    requires SpaceInv(derive, scope, sp)
    ensures SpaceInv(derive, scope, Transit(scope, sp, request, policy, now).0)
  {
    hide Decide, Applied, EntryOk;
    if request.operationId !in sp.operations && request.claimId in sp.claims {
      assert ClaimOk(derive, scope, sp, request.claimId);
      var claim := sp.claims[request.claimId];
      DecidedOutcome(scope.tenant, Key(scope), claim, request, policy, now);
      var decided := Decide(scope.tenant, Key(scope), claim, request, policy, now);
      if decided.Ok? {
        AppliedKeeps(derive, scope, sp, request.operationId, decided.value);
      }
    }
  }

  lemma ServeKeeps(derive: Derivation, scope: Scope, sp: Space, call: Call)
    requires SpaceInv(derive, scope, sp)
    ensures SpaceInv(derive, scope, Serve(derive, scope, sp, call).0)
  {
    hide SpaceInv, Append, Transit;
    match call {
      case AppendCall(claim) => AppendKeeps(derive, scope, sp, claim);
      case TransitionCall(request, policy, now) => TransitKeeps(derive, scope, sp, request, policy, now);
    }
  }

  lemma {:induction false} RunKeeps(derive: Derivation, scope: Scope, sp: Space, calls: seq<Call>)
    requires SpaceInv(derive, scope, sp)
    ensures SpaceInv(derive, scope, ServeAll(derive, scope, sp, calls))
    decreases |calls|
  {
    hide SpaceInv, Serve;
    if calls != [] {
      RunKeeps(derive, scope, sp, calls[..|calls| - 1]);
      ServeKeeps(derive, scope, ServeAll(derive, scope, sp, calls[..|calls| - 1]), calls[|calls| - 1]);
    }
  }

  lemma EmptySpaceOk(derive: Derivation, scope: Scope)
    ensures SpaceInv(derive, scope, EMPTY_SPACE)
  {
  }

  lemma SpaceRunKeeps(derive: Derivation, scope: Scope, calls: seq<Call>)
    ensures SpaceInv(derive, scope, SpaceAfter(derive, scope, calls))
  {
    hide SpaceInv, ServeAll;
    EmptySpaceOk(derive, scope);
    RunKeeps(derive, scope, EMPTY_SPACE, calls);
  }

  // ----- The theorems -----

  /** In every reachable space a claim's transitions are numbered from one, form a legal chain from
      `Proposed` to its current trust, and number at most 32; `Proposed` means no transitions; and
      everything but trust and count is what its append stored. */
  lemma ClaimHistoryHolds(derive: Derivation, scope: Scope, calls: seq<Call>, id: ClaimId)
    requires id in SpaceAfter(derive, scope, calls).claims
    ensures var sp := SpaceAfter(derive, scope, calls);
            var claim, history := sp.claims[id], History(sp, id);
            && LegalChain(id, history) && claim.trust == TrustAfter(history)
            && |history| == claim.transitionCount <= CLAIM_MAX_TRUST_TRANSITIONS
            && (claim.trust == Proposed <==> claim.transitionCount == 0)
            && claim.operationId in sp.operations
            && sp.operations[claim.operationId] == AppliedAppend(Immutable(claim))
  {
    hide ServeAll;
    SpaceRunKeeps(derive, scope, calls);
    var sp := SpaceAfter(derive, scope, calls);
    assert ClaimOk(derive, scope, sp, id);
    ChainNeverReturns(id, History(sp, id));
  }

  /** Nothing transitions back to `Proposed`. */
  lemma ChainNeverReturns(id: ClaimId, history: seq<Transition>)
    requires LegalChain(id, history)
    ensures TrustAfter(history) == Proposed <==> history == []
  {
  }

  function OperationOf(call: Call): OperationId {
    match call
    case AppendCall(claim) => claim.operationId
    case TransitionCall(request, _, _) => request.operationId
  }

  /** A call that gets past the checks made before the ledger is consulted. */
  predicate WellFormed(derive: Derivation, scope: Scope, call: Call) {
    call.AppendCall? ==> AppendDoor(derive, scope, call.claim).None?
  }

  /** What the ledger answers a call whose operation id is spent. */
  function LedgerAnswer(entry: LedgerEntry, call: Call): Answer {
    match call
    case AppendCall(_) =>
      Appended(match entry case AppliedAppend(original) => Ok(original) case AppliedTransition(_) => Err(OperationConflict))
    case TransitionCall(_, _, _) =>
      Transited(match entry case AppliedTransition(original) => Ok(original) case AppliedAppend(_) => Err(OperationConflict))
  }

  lemma ServeKeepsLedger(derive: Derivation, scope: Scope, sp: Space, call: Call, operation: OperationId)
    requires operation in sp.operations
    ensures operation in Serve(derive, scope, sp, call).0.operations
    ensures Serve(derive, scope, sp, call).0.operations[operation] == sp.operations[operation]
  {
    hide Decide, AppendDoor;
  }

  lemma {:induction false} LedgerNeverChanges(derive: Derivation, scope: Scope, sp: Space, calls: seq<Call>, operation: OperationId)
    requires operation in sp.operations
    ensures operation in ServeAll(derive, scope, sp, calls).operations
    ensures ServeAll(derive, scope, sp, calls).operations[operation] == sp.operations[operation]
    decreases |calls|
  {
    hide Serve;
    if calls != [] {
      LedgerNeverChanges(derive, scope, sp, calls[..|calls| - 1], operation);
      ServeKeepsLedger(derive, scope, ServeAll(derive, scope, sp, calls[..|calls| - 1]), calls[|calls| - 1], operation);
    }
  }

  /** Once an operation id is spent, every later well-formed call under it, however the record has moved
      since, is answered from the ledger and changes nothing: the original result for its own kind, a
      conflict for the other. */
  lemma SpentOperationReplays(derive: Derivation, scope: Scope, sp: Space, later: seq<Call>, call: Call)
    requires OperationOf(call) in sp.operations && WellFormed(derive, scope, call)
    ensures var after := ServeAll(derive, scope, sp, later);
            Serve(derive, scope, after, call) == (after, LedgerAnswer(sp.operations[OperationOf(call)], call))
  {
    hide ServeAll, AppendDoor;
    LedgerNeverChanges(derive, scope, sp, later, OperationOf(call));
  }

  function Succeeded(answer: Answer): bool {
    match answer
    case Appended(r) => r.Ok?
    case Transited(r) => r.Ok?
  }

  lemma SuccessIsRecorded(derive: Derivation, scope: Scope, sp: Space, call: Call)
    requires Succeeded(Serve(derive, scope, sp, call).1)
    ensures var (after, answer) := Serve(derive, scope, sp, call);
            OperationOf(call) in after.operations && LedgerAnswer(after.operations[OperationOf(call)], call) == answer
            && WellFormed(derive, scope, call)
  {
    hide Decide, AppendDoor;
  }

  /** A successful call, repeated after any further calls, returns its first result and changes nothing. */
  lemma RepeatReturnsFirst(derive: Derivation, scope: Scope, sp: Space, call: Call, later: seq<Call>)
    requires Succeeded(Serve(derive, scope, sp, call).1)
    ensures var (first, answer) := Serve(derive, scope, sp, call);
            var after := ServeAll(derive, scope, first, later);
            Serve(derive, scope, after, call) == (after, answer)
  {
    SuccessIsRecorded(derive, scope, sp, call);
    hide ServeAll, Serve, LedgerAnswer, WellFormed;
    SpentOperationReplays(derive, scope, Serve(derive, scope, sp, call).0, later, call);
  }

  /** Another spent append operation derives the same claim id. */
  ghost predicate Collides(derive: Derivation, scope: Scope, sp: Space, operation: OperationId) {
    exists other :: other in sp.operations && sp.operations[other].AppliedAppend? && other != operation
      && derive(Key(scope), other) == derive(Key(scope), operation)
  }

  /** `claim-already-exists` is answered if and only if a fresh operation's derived id collides with a
      different spent append; an injective derivation makes it unreachable. */
  lemma AlreadyExistsIsCollision(derive: Derivation, scope: Scope, calls: seq<Call>, claim: Claim)
    ensures var sp := SpaceAfter(derive, scope, calls);
            Append(derive, scope, sp, claim).1 == Err(AlreadyExists)
            <==> AppendDoor(derive, scope, claim).None? && claim.operationId !in sp.operations
                 && Collides(derive, scope, sp, claim.operationId)
  {
    hide ServeAll, AppendDoor, LegalChain, ValidationError;
    SpaceRunKeeps(derive, scope, calls);
    DoorErrors(derive, scope, claim);
    var sp := SpaceAfter(derive, scope, calls);
    if AppendDoor(derive, scope, claim).None? && claim.operationId !in sp.operations {
      DoorPassed(derive, scope, claim);
      if claim.claimId in sp.claims {
        assert ClaimOk(derive, scope, sp, claim.claimId);
      }
      if Collides(derive, scope, sp, claim.operationId) {
        var other :| other in sp.operations && sp.operations[other].AppliedAppend? && other != claim.operationId
                     && derive(Key(scope), other) == derive(Key(scope), claim.operationId);
        assert EntryOk(sp, other);
        assert ClaimOk(derive, scope, sp, sp.operations[other].claim.claimId);
      }
    }
  }

  /** No two operations of a scope derive the same claim id. */
  ghost predicate InjectiveIn(derive: Derivation, scope: Scope) {
    forall a, b :: derive(Key(scope), a) == derive(Key(scope), b) ==> a == b
  }

  /** With an injective derivation no run ever answers `claim-already-exists`. */
  lemma AlreadyExistsUnreachable(derive: Derivation, scope: Scope, calls: seq<Call>, claim: Claim)
    requires InjectiveIn(derive, scope)
    ensures Append(derive, scope, SpaceAfter(derive, scope, calls), claim).1 != Err(AlreadyExists)
  {
    hide SpaceAfter, Append, AppendDoor;
    AlreadyExistsIsCollision(derive, scope, calls, claim);
  }

  lemma DoorErrors(derive: Derivation, scope: Scope, claim: Claim)
    ensures AppendDoor(derive, scope, claim) != Some(AlreadyExists)
  {
  }
}

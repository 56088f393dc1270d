/** What an auditor can rely on in every space reached by any run of calls: stored records still validate, a
    retraction is final, and gated promotions carry their receipts. */
module ClaimAudit {
  import opened Common
  import opened ClaimModel
  import opened ScopeKey
  import opened ClaimSpace

  /** The lattice in one line: anything but a retracted claim may move to any other status except back to
      `Proposed`. */
  lemma TransitionLattice(from: Trust, to: Trust)
    ensures MayTransition(from, to) <==> from != Retracted && to != Proposed && to != from
  {
  }

  /** The bounds and coherence rules a record must meet. */
  ghost predicate Coherent(c: Claim) {
    && (c.obj.ValueObject? ==> |c.obj.content| <= 4096)
    && |c.evidence| <= 16 && c.confidenceBps <= 10000 && |c.access| <= 16
    && (c.provenance.effect.Some? ==> |c.provenance.effect.value| <= 256)
    && (c.embedding.Some? ==> 1 <= |c.embedding.value.model| <= 128 && c.embedding.value.dimensions > 0)
    && c.contentDigest == Statement(c.subject, c.relation, c.obj)
    && (c.trust == Proposed <==> c.transitionCount == 0)
  }

  lemma ValidationIsCoherence(c: Claim)
    ensures ValidationError(c).None? <==> Coherent(c)
  {
  }

  // ----- Stored records validate -----

  ghost predicate Bounded(c: Claim) {
    ValidationError(Immutable(c)).None?
  }

  ghost predicate BoundedSpace(sp: Space) {
    forall id :: id in sp.claims ==> Bounded(sp.claims[id])
  }

  lemma ServeKeepsBounds(derive: Derivation, scope: Scope, sp: Space, call: Call)
    requires BoundedSpace(sp)
    ensures BoundedSpace(Serve(derive, scope, sp, call).0)
  {
    match call {
      case AppendCall(claim) =>
        if AppendDoor(derive, scope, claim).None? {
          assert Immutable(claim) == claim;
        }
      case TransitionCall(request, policy, now) =>
        if request.operationId !in sp.operations && request.claimId in sp.claims {
          var claim := sp.claims[request.claimId];
          DecidedOutcome(scope.tenant, Key(scope), claim, request, policy, now);
          hide Decide, ValidationError, Key;
          var decided := Decide(scope.tenant, Key(scope), claim, request, policy, now);
          if decided.Ok? {
            assert Immutable(decided.value.claim) == Immutable(claim);
          }
        }
    }
  }

  lemma {:induction false} RunKeepsBounds(derive: Derivation, scope: Scope, calls: seq<Call>)
    ensures BoundedSpace(SpaceAfter(derive, scope, calls))
  {
    if calls != [] {
      hide Serve, BoundedSpace;
      RunKeepsBounds(derive, scope, calls[..|calls| - 1]);
      ServeKeepsBounds(derive, scope, SpaceAfter(derive, scope, calls[..|calls| - 1]), calls[|calls| - 1]);
    }
  }

  /** Every stored record meets every rule its restoration checks, however often the claim has moved. */
  lemma StoredClaimsValidate(derive: Derivation, scope: Scope, calls: seq<Call>, id: ClaimId)
    requires id in SpaceAfter(derive, scope, calls).claims
    ensures ValidationError(SpaceAfter(derive, scope, calls).claims[id]).None?
    ensures Coherent(SpaceAfter(derive, scope, calls).claims[id])
  {
    RunKeepsBounds(derive, scope, calls);
    ClaimHistoryHolds(derive, scope, calls, id);
    hide SpaceAfter, LegalChain, TrustAfter;
    var claim := SpaceAfter(derive, scope, calls).claims[id];
    assert Bounded(claim);
    ValidationIsCoherence(Immutable(claim));
    ValidationIsCoherence(claim);
  }

  // ----- Retraction is final -----

  lemma ServeKeepsRetracted(derive: Derivation, scope: Scope, sp: Space, call: Call, id: ClaimId)
    requires SpaceInv(derive, scope, sp) && id in sp.claims && sp.claims[id].trust == Retracted
    ensures var after := Serve(derive, scope, sp, call).0;
            id in after.claims && after.claims[id] == sp.claims[id] && History(after, id) == History(sp, id)
  {
    hide AppendDoor, LegalChain, TrustAfter, Key, EntryOk;
    match call {
      case AppendCall(_) =>
      case TransitionCall(request, policy, now) =>
        if request.operationId !in sp.operations && request.claimId in sp.claims {
          var claim := sp.claims[request.claimId];
          assert ClaimOk(derive, scope, sp, request.claimId);
          DecidedOutcome(scope.tenant, Key(scope), claim, request, policy, now);
          hide Decide;
        }
    }
  }

  /** Once retracted, a claim's record and its history never change again. */
  lemma {:induction false} RetractionIsFinal(derive: Derivation, scope: Scope, sp: Space, calls: seq<Call>, id: ClaimId)
    requires SpaceInv(derive, scope, sp) && id in sp.claims && sp.claims[id].trust == Retracted
    ensures var after := ServeAll(derive, scope, sp, calls);
            id in after.claims && after.claims[id] == sp.claims[id] && History(after, id) == History(sp, id)
    decreases |calls|
  {
    if calls != [] {
      hide SpaceInv, Serve;
      RetractionIsFinal(derive, scope, sp, calls[..|calls| - 1], id);
      RunKeeps(derive, scope, sp, calls[..|calls| - 1]);
      ServeKeepsRetracted(derive, scope, ServeAll(derive, scope, sp, calls[..|calls| - 1]), calls[|calls| - 1], id);
    }
  }

  // ----- Receipts -----

  /** The receipt on a promotion binds this claim's statement, its status before, and its ordinal. */
  ghost predicate Receipted(key: string, claim: Claim, t: Transition) {
    t.to == Verified ==>
      && t.gate.Some?
      && t.gate.value.argumentDigest
         == PromotionPayload(claim.claimId, t.from, claim.obj, t.ordinal, claim.relation, key, claim.subject)
  }

  ghost predicate ReceiptedSpace(key: string, sp: Space) {
    forall id, i :: id in sp.claims && 0 <= i < |History(sp, id)| ==> Receipted(key, sp.claims[id], History(sp, id)[i])
  }

  ghost predicate AllGated(calls: seq<Call>) {
    forall i :: 0 <= i < |calls| && calls[i].TransitionCall? ==> calls[i].policy == GateAll
  }

  lemma GatedDecision(tenant: string, key: string, c: Claim, request: TransitionRequest, now: Timestamp)
    ensures var decided := Decide(tenant, key, c, request, GateAll, now);
            decided.Ok? ==> Receipted(key, c, decided.value.transition)
  {
  }

  lemma ServeKeepsReceipts(derive: Derivation, scope: Scope, sp: Space, call: Call)
    requires SpaceInv(derive, scope, sp) && ReceiptedSpace(Key(scope), sp) && (call.TransitionCall? ==> call.policy == GateAll)
    ensures ReceiptedSpace(Key(scope), Serve(derive, scope, sp, call).0)
  {
    hide AppendDoor, LegalChain, TrustAfter, Key, EntryOk, Decide;
    match call {
      case AppendCall(claim) =>
      case TransitionCall(request, policy, now) =>
        if request.operationId !in sp.operations && request.claimId in sp.claims {
          var claim := sp.claims[request.claimId];
          assert ClaimOk(derive, scope, sp, request.claimId);
          DecidedOutcome(scope.tenant, Key(scope), claim, request, policy, now);
          GatedDecision(scope.tenant, Key(scope), claim, request, now);
          var decided := Decide(scope.tenant, Key(scope), claim, request, policy, now);
          if decided.Ok? {
            AppliedKeepsReceipts(Key(scope), sp, request.operationId, decided.value);
          }
        }
    }
  }

  lemma AppliedKeepsReceipts(key: string, sp: Space, operation: OperationId, outcome: Outcome)
    requires ReceiptedSpace(key, sp) && outcome.claim.claimId in sp.claims
    requires var claim := sp.claims[outcome.claim.claimId];
             && outcome.claim == claim.(trust := outcome.claim.trust, transitionCount := outcome.claim.transitionCount)
             && Receipted(key, claim, outcome.transition)
    ensures ReceiptedSpace(key, Applied(sp, operation, outcome))
  {
    var after, moved := Applied(sp, operation, outcome), outcome.claim.claimId;
    forall id, i | id in after.claims && 0 <= i < |History(after, id)|
      ensures Receipted(key, after.claims[id], History(after, id)[i])
    {
      if id != moved || i < |History(sp, id)| {
        assert Receipted(key, sp.claims[id], History(sp, id)[i]);
      }
    }
  }

  lemma {:induction false} RunKeepsReceipts(derive: Derivation, scope: Scope, calls: seq<Call>)
    requires AllGated(calls)
    ensures ReceiptedSpace(Key(scope), SpaceAfter(derive, scope, calls))
  {
    if calls != [] {
      hide SpaceInv, Serve, ReceiptedSpace, Key;
      RunKeepsReceipts(derive, scope, calls[..|calls| - 1]);
      SpaceRunKeeps(derive, scope, calls[..|calls| - 1]);
      ServeKeepsReceipts(derive, scope, SpaceAfter(derive, scope, calls[..|calls| - 1]), calls[|calls| - 1]);
    }
  }

  /** Under the policy that gates everything, no claim of any reachable space was ever promoted without a receipt
      for exactly that promotion. */
  lemma PromotionsAreReceipted(derive: Derivation, scope: Scope, calls: seq<Call>, id: ClaimId, i: nat)
    requires AllGated(calls) && id in SpaceAfter(derive, scope, calls).claims
    requires i < |History(SpaceAfter(derive, scope, calls), id)|
    ensures var sp := SpaceAfter(derive, scope, calls);
            History(sp, id)[i].to == Verified ==>
              && History(sp, id)[i].gate.Some?
              && History(sp, id)[i].gate.value.argumentDigest
                 == PromotionPayload(id, TrustAfter(History(sp, id)[..i]), sp.claims[id].obj, i + 1,
                                     sp.claims[id].relation, Key(scope), sp.claims[id].subject)
  {
    RunKeepsReceipts(derive, scope, calls);
    SpaceRunKeeps(derive, scope, calls);
    hide SpaceAfter, TrustAfter, Key, EntryOk;
    var sp := SpaceAfter(derive, scope, calls);
    assert ClaimOk(derive, scope, sp, id);
    assert Receipted(Key(scope), sp.claims[id], History(sp, id)[i]);
  }
}

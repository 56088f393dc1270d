/** The in-memory reference store: every scope's claims, histories and ledger under its key. */
module ClaimStore {
  import opened Common
  import opened ClaimModel
  import opened ScopeKey
  import opened Traversal
  import opened ClaimSpace
  import opened ClaimPaging

  /** The space a key holds; a key never written holds the empty space. */
  function SpaceOf(store: map<string, Space>, key: string): Space {
    if key in store then store[key] else EMPTY_SPACE
  }

  datatype Addressed = Addressed(scope: Scope, call: Call)

  function StoreServe(derive: Derivation, store: map<string, Space>, a: Addressed): (map<string, Space>, Answer) {
    var (after, answer) := Serve(derive, a.scope, SpaceOf(store, Key(a.scope)), a.call);
    (store[Key(a.scope) := after], answer)
  }

  function StoreAfter(derive: Derivation, store: map<string, Space>, calls: seq<Addressed>): map<string, Space> {
    if calls == [] then store
    else StoreServe(derive, StoreAfter(derive, store, calls[..|calls| - 1]), calls[|calls| - 1]).0
  }

  /** The calls of a run that address one scope, in order. */
  function CallsTo(scope: Scope, calls: seq<Addressed>): seq<Call> {
    if calls == [] then []
    else CallsTo(scope, calls[..|calls| - 1]) + (if calls[|calls| - 1].scope == scope then [calls[|calls| - 1].call] else [])
  }

  ghost predicate ValidCalls(calls: seq<Addressed>) {
    forall i :: 0 <= i < |calls| ==> ValidScope(calls[i].scope)
  }

  // ----- The store as an object -----

  /** The claims of a map in ascending id order: the iteration order of an ordered map. */
  ghost function InOrder(claims: map<ClaimId, Claim>, ids: set<ClaimId>): seq<Claim>
    requires ids <= claims.Keys
    decreases |ids|
  {
    if ids == {} then [] else [claims[Least(ids)]] + InOrder(claims, ids - {Least(ids)})
  }

  lemma {:induction false} InOrderMember(claims: map<ClaimId, Claim>, ids: set<ClaimId>, c: Claim)
    requires ids <= claims.Keys && forall id :: id in ids ==> claims[id].claimId == id
    ensures c in InOrder(claims, ids) <==> c.claimId in ids && claims[c.claimId] == c
    decreases |ids|
  {
    if ids != {} {
      var least := Least(ids);
      InOrderMember(claims, ids - {least}, c);
      assert c in InOrder(claims, ids) <==> c == claims[least] || c in InOrder(claims, ids - {least});
    }
  }

  lemma {:induction false} InOrderAscends(claims: map<ClaimId, Claim>, ids: set<ClaimId>)
    requires ids <= claims.Keys && forall id :: id in ids ==> claims[id].claimId == id
    ensures InIdOrder(InOrder(claims, ids))
    decreases |ids|
  {
    if ids != {} {
      var least := Least(ids);
      var rest := InOrder(claims, ids - {least});
      InOrderAscends(claims, ids - {least});
      forall i | 0 <= i < |rest| ensures least < rest[i].claimId {
        InOrderMember(claims, ids - {least}, rest[i]);
      }
    }
  }

  method Iterate(claims: map<ClaimId, Claim>) returns (r: seq<Claim>)
    ensures r == InOrder(claims, claims.Keys)
  {
    r := [];
    var ids := claims.Keys;
    while ids != {}
      invariant ids <= claims.Keys && r + InOrder(claims, ids) == InOrder(claims, claims.Keys)
      decreases |ids|
    {
      var least := Smallest(ids);
      r := r + [claims[least]];
      ids := ids - {least};
    }
  }

  class InMemoryKnowledgeGraphStore {
    const derive: Derivation
    var claims: map<string, map<ClaimId, Claim>>
    var transitions: map<string, map<ClaimId, seq<Transition>>>
    var operations: map<string, map<OperationId, LedgerEntry>>

    constructor (derive: Derivation)
      ensures this.derive == derive && Valid()
      ensures forall key :: SpaceAt(key) == EMPTY_SPACE
    {
      this.derive := derive;
      claims, transitions, operations := map[], map[], map[];
    }

    /** What the three maps hold under one key. */
    ghost function SpaceAt(key: string): Space
      reads this
    {
      Space(if key in claims then claims[key] else map[],
            if key in transitions then transitions[key] else map[],
            if key in operations then operations[key] else map[])
    }

    /** Every claim is stored under its own id. */
    ghost predicate Valid()
      reads this
    {
      forall key, id :: key in claims && id in claims[key] ==> claims[key][id].claimId == id
    }

    method Append(scope: Scope, claim: Claim) returns (r: Result<Claim, ClaimError>)
      requires Valid()
      modifies this
      ensures Valid()
      ensures (SpaceAt(Key(scope)), r) == ClaimSpace.Append(derive, scope, old(SpaceAt(Key(scope))), claim)
      ensures forall key :: key != Key(scope) ==> SpaceAt(key) == old(SpaceAt(key))
    {
      hide ValidationError;
      if ValidationError(claim).Some? {
        return Err(ValidationError(claim).value);
      }
      if claim.trust != Proposed || claim.transitionCount != 0 {
        return Err(AppendNotProposed);
      }
      var key := Key(scope);
      if claim.claimId != derive(key, claim.operationId) {
        return Err(AppendIdNotDerived);
      }
      if key in operations && claim.operationId in operations[key] {
        match operations[key][claim.operationId] {
          case AppliedAppend(original) => return Ok(original);
          case AppliedTransition(_) => return Err(OperationConflict);
        }
      }
      if key in claims && claim.claimId in claims[key] {
        return Err(AlreadyExists);
      }
      claims := claims[key := (if key in claims then claims[key] else map[])[claim.claimId := claim]];
      operations := operations[key := (if key in operations then operations[key] else map[])
                                      [claim.operationId := AppliedAppend(claim)]];
      return Ok(claim);
    }

    /** The three writes of an applied transition. */
    method Record(key: string, operation: OperationId, outcome: Outcome)
      requires Valid() && key in claims
      modifies this
      ensures Valid()
      ensures SpaceAt(key) == Applied(old(SpaceAt(key)), operation, outcome)
      ensures forall other :: other != key ==> SpaceAt(other) == old(SpaceAt(other))
    {
      var id := outcome.claim.claimId;
      claims := claims[key := claims[key][id := outcome.claim]];
      var histories := if key in transitions then transitions[key] else map[];
      var history := if id in histories then histories[id] else [];
      transitions := transitions[key := histories[id := history + [outcome.transition]]];
      operations := operations[key := (if key in operations then operations[key] else map[])
                                      [operation := AppliedTransition(outcome)]];
    }

    method Transit(scope: Scope, request: TransitionRequest, policy: PromotionPolicy, now: Timestamp)
      returns (r: Result<Outcome, ClaimError>)
      requires Valid()
      modifies this
      ensures Valid()
      ensures (SpaceAt(Key(scope)), r) == ClaimSpace.Transit(scope, old(SpaceAt(Key(scope))), request, policy, now)
      ensures forall key :: key != Key(scope) ==> SpaceAt(key) == old(SpaceAt(key))
    {
      hide Decide, Key, Applied;
      var key := Key(scope);
      if key in operations && request.operationId in operations[key] {
        match operations[key][request.operationId] {
          case AppliedTransition(original) => return Ok(original);
          case AppliedAppend(_) => return Err(OperationConflict);
        }
      }
      if key !in claims || request.claimId !in claims[key] {
        return Err(NotFound);
      }
      var claim := claims[key][request.claimId];
      var decided := Decide(scope.tenant, key, claim, request, policy, now);
      if decided.Err? {
        return Err(decided.error);
      }
      var outcome := decided.value;
      Record(key, request.operationId, outcome);
      return Ok(outcome);
    }

    method Get(scope: Scope, id: ClaimId) returns (r: Option<Claim>)
      ensures r.Some? <==> id in SpaceAt(Key(scope)).claims
      ensures r.Some? ==> r.value == SpaceAt(Key(scope)).claims[id]
    {
      var key := Key(scope);
      if key in claims && id in claims[key] {
        return Some(claims[key][id]);
      }
      return None;
    }

    method Query(scope: Scope, admits: Admission, cursor: Cursor) returns (page: Page)
      requires Valid() && ValidCursor(cursor)
      ensures page == PageOf(InOrder(SpaceAt(Key(scope)).claims, SpaceAt(Key(scope)).claims.Keys), admits, cursor)
    {
      var key := Key(scope);
      if key !in claims {
        return Page([], None);
      }
      var ordered := Iterate(claims[key]);
      page := ClaimPaging.Query(ordered, admits, cursor);
    }

    method Traverse(scope: Scope, t: Request) returns (r: Report)
      requires Valid() && 1 <= t.nodeBudget
      ensures r == Traversed(t, InOrder(SpaceAt(Key(scope)).claims, SpaceAt(Key(scope)).claims.Keys))
    {
      hide Traversed;
      var key := Key(scope);
      var held := if key in claims then claims[key] else map[];
      var ordered := Iterate(held);
      InOrderAscends(held, held.Keys);
      r := Traversal.Traverse(t, ordered);
    }
  }

  // ----- Non-interference -----

  /** What a run leaves under one scope's key depends only on the calls addressed to that scope. */
  lemma {:induction false} ScopeSeesItsOwnCalls(derive: Derivation, store: map<string, Space>, calls: seq<Addressed>, scope: Scope)
    requires ValidCalls(calls) && ValidScope(scope)
    ensures SpaceOf(StoreAfter(derive, store, calls), Key(scope))
            == ServeAll(derive, scope, SpaceOf(store, Key(scope)), CallsTo(scope, calls))
    decreases |calls|
  {
    hide Serve, Key, ValidScope;
    if calls != [] {
      var front, last := calls[..|calls| - 1], calls[|calls| - 1];
      ScopeSeesItsOwnCalls(derive, store, front, scope);
      assert ValidScope(last.scope);
      if last.scope == scope {
        var mine := CallsTo(scope, front) + [last.call];
        assert mine[..|mine| - 1] == CallsTo(scope, front);
      } else if Key(last.scope) == Key(scope) {
        KeyInjective(last.scope, scope);
        assert false;
      } else {
        assert CallsTo(scope, calls) == CallsTo(scope, front);
      }
    }
  }

  /** Two stores that agree on one scope still agree on it after arbitrary runs that address it with the same
      calls, whatever else they do elsewhere, and answer the next call addressed to it identically. */
  lemma ScopesDoNotInterfere(derive: Derivation, one: map<string, Space>, other: map<string, Space>,
                             ones: seq<Addressed>, others: seq<Addressed>, scope: Scope, call: Call)
    requires ValidCalls(ones) && ValidCalls(others) && ValidScope(scope)
    requires SpaceOf(one, Key(scope)) == SpaceOf(other, Key(scope))
    requires CallsTo(scope, ones) == CallsTo(scope, others)
    ensures var left, right := StoreAfter(derive, one, ones), StoreAfter(derive, other, others);
            && SpaceOf(left, Key(scope)) == SpaceOf(right, Key(scope))
            && StoreServe(derive, left, Addressed(scope, call)).1 == StoreServe(derive, right, Addressed(scope, call)).1
  {
    hide Serve, StoreAfter, Key, ValidScope;
    ScopeSeesItsOwnCalls(derive, one, ones, scope);
    ScopeSeesItsOwnCalls(derive, other, others, scope);
  }

  // ----- Grants -----

  /** Call `i` of the run freshly applied a gated promotion under the grant. */
  ghost predicate Uses(derive: Derivation, calls: seq<Addressed>, i: nat, g: Grant) {
    i < |calls| && calls[i].call.TransitionCall? &&
    var a := calls[i];
    var sp := SpaceOf(StoreAfter(derive, map[], calls[..i]), Key(a.scope));
    var answer := Serve(derive, a.scope, sp, a.call).1;
    && a.call.request.operationId !in sp.operations
    && answer.Transited? && answer.transition.Ok? && answer.transition.value.transition.gate.Some?
    && a.call.request.promotion == Some(g)
  }

  /** A fresh gated promotion moves the claim its grant names from the count its grant names. */
  lemma GateBindsCount(derive: Derivation, scope: Scope, sp: Space, request: TransitionRequest, policy: PromotionPolicy, now: Timestamp, g: Grant)
    requires SpaceInv(derive, scope, sp) && request.operationId !in sp.operations && request.promotion == Some(g)
    requires var answer := Transit(scope, sp, request, policy, now).1; answer.Ok? && answer.value.transition.gate.Some?
    ensures var id := g.binding.effectId;
            && id in sp.claims && sp.claims[id].transitionCount + 1 == g.binding.generation
            && g.binding.argumentDigest.scopeKey == Key(scope)
            && var after := Transit(scope, sp, request, policy, now).0;
               id in after.claims && after.claims[id].transitionCount == g.binding.generation
  {
    hide LegalChain, Key, TrustAfter;
    assert ClaimOk(derive, scope, sp, request.claimId);
  }

  /** Claims are never removed and their counts never fall. */
  lemma CountNeverFalls(derive: Derivation, scope: Scope, sp: Space, call: Call, id: ClaimId)
    requires SpaceInv(derive, scope, sp) && id in sp.claims
    ensures var after := Serve(derive, scope, sp, call).0;
            id in after.claims && after.claims[id].transitionCount >= sp.claims[id].transitionCount
  {
    hide AppendDoor, Decide, LegalChain, TrustAfter, Key;
    match call {
      case AppendCall(_) =>
      case TransitionCall(request, policy, now) =>
        if request.operationId !in sp.operations && request.claimId in sp.claims {
          assert ClaimOk(derive, scope, sp, request.claimId);
          DecidedOutcome(scope.tenant, Key(scope), sp.claims[request.claimId], request, policy, now);
        }
    }
  }

  ghost predicate Reached(sp: Space, id: ClaimId, count: nat) {
    id in sp.claims && sp.claims[id].transitionCount >= count
  }

  /** A count reached in a scope stays reached, whatever the rest of the run does. */
  lemma {:induction false} CountStays(derive: Derivation, calls: seq<Addressed>, i: nat, scope: Scope, id: ClaimId, count: nat)
    requires ValidCalls(calls) && ValidScope(scope) && i <= |calls|
    requires Reached(SpaceOf(StoreAfter(derive, map[], calls[..i]), Key(scope)), id, count)
    ensures Reached(SpaceOf(StoreAfter(derive, map[], calls), Key(scope)), id, count)
    decreases |calls|
  {
    if i == |calls| {
      assert calls[..i] == calls;
    } else {
      hide Serve, SpaceInv, Key, ValidScope;
      var front, last := calls[..|calls| - 1], calls[|calls| - 1];
      assert front[..i] == calls[..i];
      CountStays(derive, front, i, scope, id, count);
      if Key(last.scope) == Key(scope) {
        assert ValidScope(last.scope);
        KeyInjective(last.scope, scope);
        StoreInv(derive, front, scope);
        CountNeverFalls(derive, scope, SpaceOf(StoreAfter(derive, map[], front), Key(scope)), last.call, id);
      }
    }
  }

  lemma StoreInv(derive: Derivation, calls: seq<Addressed>, scope: Scope)
    requires ValidCalls(calls) && ValidScope(scope)
    ensures SpaceInv(derive, scope, SpaceOf(StoreAfter(derive, map[], calls), Key(scope)))
  {
    hide SpaceInv, ServeAll, StoreAfter, Key, ValidScope;
    ScopeSeesItsOwnCalls(derive, map[], calls, scope);
    SpaceRunKeeps(derive, scope, CallsTo(scope, calls));
  }

  /** No run holds two gated promotions under one grant: the ordinal bound into it strictly rises. */
  lemma GrantUsedOnce(derive: Derivation, calls: seq<Addressed>, i: nat, j: nat, g: Grant)
    requires ValidCalls(calls) && Uses(derive, calls, i, g) && Uses(derive, calls, j, g)
    ensures i == j
  {
    if i < j {
      GrantSpent(derive, calls, i, j, g);
      assert false;
    } else if j < i {
      GrantSpent(derive, calls, j, i, g);
      assert false;
    }
  }

  lemma GrantSpent(derive: Derivation, calls: seq<Addressed>, i: nat, j: nat, g: Grant)
    requires ValidCalls(calls) && i < j && Uses(derive, calls, i, g)
    ensures !Uses(derive, calls, j, g)
  {
    if Uses(derive, calls, j, g) {
      assert j < |calls|;
      UseAt(derive, calls, i, g);
      UseAt(derive, calls, j, g);
      assert ValidScope(calls[i].scope) && ValidScope(calls[j].scope);
      hide *;
      KeyInjective(calls[i].scope, calls[j].scope);
      UsedCountStays(derive, calls, i, j, g);
      assert false;
    }
  }

  lemma UsedCountStays(derive: Derivation, calls: seq<Addressed>, i: nat, j: nat, g: Grant)
    requires ValidCalls(calls) && i < j < |calls|
    requires Reached(SpaceOf(StoreAfter(derive, map[], calls[..i + 1]), Key(calls[i].scope)), g.binding.effectId, g.binding.generation)
    ensures var sp, id := SpaceOf(StoreAfter(derive, map[], calls[..j]), Key(calls[i].scope)), g.binding.effectId;
            id in sp.claims && sp.claims[id].transitionCount >= g.binding.generation
  {
    hide StoreAfter, Key, ValidScope, SpaceOf;
    assert calls[..j][..i + 1] == calls[..i + 1];
    assert ValidScope(calls[i].scope);
    CountStays(derive, calls[..j], i + 1, calls[i].scope, g.binding.effectId, g.binding.generation);
  }

  lemma UseAt(derive: Derivation, calls: seq<Addressed>, i: nat, g: Grant)
    requires ValidCalls(calls) && Uses(derive, calls, i, g)
    ensures var key := Key(calls[i].scope);
            var id, before := g.binding.effectId, SpaceOf(StoreAfter(derive, map[], calls[..i]), key);
            && g.binding.argumentDigest.scopeKey == key
            && id in before.claims && before.claims[id].transitionCount + 1 == g.binding.generation
            && Reached(SpaceOf(StoreAfter(derive, map[], calls[..i + 1]), key), id, g.binding.generation)
  {
    hide SpaceInv, Key, Transit, ValidScope;
    var a := calls[i];
    var before := StoreAfter(derive, map[], calls[..i]);
    assert ValidScope(a.scope);
    StoreInv(derive, calls[..i], a.scope);
    assert calls[..i + 1][..i] == calls[..i];
    GateBindsCount(derive, a.scope, SpaceOf(before, Key(a.scope)), a.call.request, a.call.policy, a.call.now, g);
  }
}

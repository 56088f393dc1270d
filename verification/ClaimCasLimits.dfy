/** What the relational write protocol does not promise, and what both backends' reads agree on. */
module ClaimCasLimits {
  import opened Common
  import opened ClaimModel
  import opened ScopeKey
  import opened Traversal
  import opened TraversalSql
  import opened ClaimSpace
  import opened ClaimPaging
  import opened ClaimStore
  import opened ClaimCas

  /** The retraction every actor may make of a claim it can name. */
  predicate PlainRetraction(claim: Claim, request: TransitionRequest) {
    && request.claimId == claim.claimId && request.operationId != claim.operationId
    && request.to == Retracted && request.reason.None? && request.evidence == []
  }

  function RetractedOutcome(claim: Claim, request: TransitionRequest): Outcome {
    Outcome(claim.(trust := Retracted, transitionCount := 1),
            Transition(claim.claimId, request.operationId, 1, Proposed, Retracted, request.actor, request.provenance,
                       None, [], None, request.occurredAt, request.policy))
  }

  lemma RetractionDecides(scope: Scope, claim: Claim, request: TransitionRequest, policy: PromotionPolicy, now: Timestamp)
    requires PlainRetraction(claim, request) && claim.trust == Proposed && claim.transitionCount == 0
    ensures Decide(scope.tenant, Key(scope), claim, request, policy, now) == Ok(RetractedOutcome(claim, request))
    ensures Decide(scope.tenant, Key(scope), RetractedOutcome(claim, request).claim, request, policy, now) == Err(IllegalTransition)
  {
  }

  /** Client `c` is about to retract a claim that stands as it was appended, under an unspent operation. */
  ghost predicate Ready(s: State, c: nat, claim: Claim, call: Call) {
    && call.TransitionCall? && PlainRetraction(claim, call.request)
    && claim.trust == Proposed && claim.transitionCount == 0
    && claim.claimId in s.tables.rows && s.tables.rows[claim.claimId].record == claim
    && s.tables.rows[claim.claimId].transitionCount == 0 && (claim.claimId, 1) !in s.tables.history
    && call.request.operationId !in s.tables.ops
    && c in s.clients && s.clients[c].call == call && s.clients[c].phase == MoveLedger(0)
  }

  /** Its ledger read, head read and ledger snapshot, with nobody between. */
  function Prepare(derive: Derivation, scope: Scope, s: State, c: nat): State {
    Step(derive, scope, Step(derive, scope, Step(derive, scope, s, Advance(c)), Advance(c)), Advance(c))
  }

  lemma PrepareDecides(derive: Derivation, scope: Scope, s: State, c: nat, claim: Claim, call: Call)
    requires Ready(s, c, claim, call)
    ensures var outcome := RetractedOutcome(claim, call.request);
            Prepare(derive, scope, s, c)
            == s.(clients := s.clients[c := s.clients[c].(phase := MoveWrite(0, 0, claim, outcome))])
  {
    RetractionDecides(scope, claim, call.request, call.policy, call.now);
    hide Decide, Key, RetractedOutcome;
    var s1 := Step(derive, scope, s, Advance(c));
    assert s1 == s.(clients := s.clients[c := s.clients[c].(phase := MoveHead(0))]);
    var s2 := Step(derive, scope, s1, Advance(c));
    var outcome := RetractedOutcome(claim, call.request);
    assert s2 == s.(clients := s.clients[c := s.clients[c].(phase := MoveSnapshot(0, 0, claim, outcome))]);
  }

  lemma PreparedWrites(derive: Derivation, scope: Scope, s: State, c: nat, claim: Claim, call: Call)
    requires call.TransitionCall? && PlainRetraction(claim, call.request)
    requires claim.claimId in s.tables.rows && s.tables.rows[claim.claimId].transitionCount == 0
    requires (claim.claimId, 1) !in s.tables.history
    requires c in s.clients && s.clients[c].call == call
    requires s.clients[c].phase == MoveWrite(0, 0, claim, RetractedOutcome(claim, call.request))
    ensures var outcome, id := RetractedOutcome(claim, call.request), claim.claimId;
            var after := Step(derive, scope, s, Advance(c));
            && after.tables.rows == s.tables.rows[id := s.tables.rows[id].(trust := Retracted, transitionCount := 1, record := outcome.claim)]
            && after.tables.history == s.tables.history[(id, 1) := outcome.transition]
            && after.tables.ops == Recorded(s.tables.ops, call.request.operationId, AppliedTransition(outcome))
            && after.clients == s.clients[c := s.clients[c].(phase := Done(Transited(Ok(outcome)), |s.log|, true))]
  {
  }

  lemma ExecNext(derive: Derivation, scope: Scope, s: State, actions: seq<Action>, a: Action)
    ensures Exec(derive, scope, s, []) == s
    ensures Exec(derive, scope, s, actions + [a]) == Step(derive, scope, Exec(derive, scope, s, actions), a)
  {
    hide Step;
    assert (actions + [a])[..|actions|] == actions;
  }

  /** One client, alone, appends a claim. */
  function AppendsAlone(derive: Derivation, scope: Scope, s: State, claim: Claim): State {
    Step(derive, scope, Step(derive, scope, Step(derive, scope, s, Begin(0, AppendCall(claim))), Advance(0)), Advance(0))
  }

  lemma AppendsAloneWrites(derive: Derivation, scope: Scope, s: State, claim: Claim)
    requires AppendDoor(derive, scope, claim).None? && claim.operationId !in s.tables.ops && claim.claimId !in s.tables.rows
    ensures AppendsAlone(derive, scope, s, claim).tables
            == s.tables.(rows := s.tables.rows[claim.claimId := RowOf(claim)],
                         ops := s.tables.ops[claim.operationId := AppliedAppend(claim)])
  {
    hide AppendDoor, RowOf;
  }

  lemma ExecAppends(derive: Derivation, scope: Scope, actions: seq<Action>, claim: Claim)
    ensures Exec(derive, scope, INITIAL, actions + [Begin(0, AppendCall(claim))] + [Advance(0)] + [Advance(0)])
            == AppendsAlone(derive, scope, Exec(derive, scope, INITIAL, actions), claim)
  {
    hide Exec, Step;
    ExecNext(derive, scope, INITIAL, actions, Begin(0, AppendCall(claim)));
    ExecNext(derive, scope, INITIAL, actions + [Begin(0, AppendCall(claim))], Advance(0));
    ExecNext(derive, scope, INITIAL, actions + [Begin(0, AppendCall(claim))] + [Advance(0)], Advance(0));
  }

  /** One client appends a claim, then two others begin to retract it. */
  function RaceActions(claim: Claim, one: Call, other: Call): seq<Action> {
    [] + [Begin(0, AppendCall(claim))] + [Advance(0)] + [Advance(0)] + [Begin(1, one)] + [Begin(2, other)]
  }

  /** The state of a race over one claim is reached from the empty store. */
  lemma RaceIsReachable(derive: Derivation, scope: Scope, claim: Claim, one: Call, other: Call)
    requires AppendDoor(derive, scope, claim).None? && one.TransitionCall? && other.TransitionCall?
    requires PlainRetraction(claim, one.request) && PlainRetraction(claim, other.request)
    ensures var s := Exec(derive, scope, INITIAL, RaceActions(claim, one, other));
            Ready(s, 1, claim, one) && Ready(s, 2, claim, other)
  {
    DoorPassed(derive, scope, claim);
    hide AppendDoor, Exec, Step, AppendsAlone;
    var a3 := [] + [Begin(0, AppendCall(claim))] + [Advance(0)] + [Advance(0)];
    ExecNext(derive, scope, INITIAL, [], Advance(0));
    ExecAppends(derive, scope, [], claim);
    AppendsAloneWrites(derive, scope, INITIAL, claim);
    ExecNext(derive, scope, INITIAL, a3, Begin(1, one));
    ExecNext(derive, scope, INITIAL, a3 + [Begin(1, one)], Begin(2, other));
    TwoBegin(derive, scope, Exec(derive, scope, INITIAL, a3), one, other);
  }

  /** Two claims are appended, then two clients begin to retract one each. */
  function SharedRaceActions(one: Claim, other: Claim, mine: Call, theirs: Call): seq<Action> {
    [] + [Begin(0, AppendCall(one))] + [Advance(0)] + [Advance(0)]
    + [Begin(0, AppendCall(other))] + [Advance(0)] + [Advance(0)] + [Begin(1, mine)] + [Begin(2, theirs)]
  }

  /** The state of a race over two claims under one operation id is reached from the empty store. */
  lemma SharedRaceIsReachable(derive: Derivation, scope: Scope, one: Claim, other: Claim, mine: Call, theirs: Call)
    requires AppendDoor(derive, scope, one).None? && AppendDoor(derive, scope, other).None?
    requires one.claimId != other.claimId && one.operationId != other.operationId
    requires mine.TransitionCall? && theirs.TransitionCall? && mine.request.operationId == theirs.request.operationId
    requires PlainRetraction(one, mine.request) && PlainRetraction(other, theirs.request)
    ensures var s := Exec(derive, scope, INITIAL, SharedRaceActions(one, other, mine, theirs));
            Ready(s, 1, one, mine) && Ready(s, 2, other, theirs)
  {
    DoorPassed(derive, scope, one);
    DoorPassed(derive, scope, other);
    hide AppendDoor, Exec, Step, AppendsAlone;
    var a3 := [] + [Begin(0, AppendCall(one))] + [Advance(0)] + [Advance(0)];
    var a6 := a3 + [Begin(0, AppendCall(other))] + [Advance(0)] + [Advance(0)];
    ExecNext(derive, scope, INITIAL, [], Advance(0));
    ExecAppends(derive, scope, [], one);
    AppendsAloneWrites(derive, scope, INITIAL, one);
    var s3 := Exec(derive, scope, INITIAL, a3);
    ExecAppends(derive, scope, a3, other);
    AppendsAloneWrites(derive, scope, s3, other);
    ExecNext(derive, scope, INITIAL, a6, Begin(1, mine));
    ExecNext(derive, scope, INITIAL, a6 + [Begin(1, mine)], Begin(2, theirs));
    TwoBegin(derive, scope, Exec(derive, scope, INITIAL, a6), mine, theirs);
  }

  lemma TwoBegin(derive: Derivation, scope: Scope, s: State, one: Call, other: Call)
    requires one.TransitionCall? && other.TransitionCall?
    ensures var after := Step(derive, scope, Step(derive, scope, s, Begin(1, one)), Begin(2, other));
            && after.tables == s.tables && 1 in after.clients && 2 in after.clients
            && after.clients[1] == Client(one, MoveLedger(0), |s.log|) && after.clients[2] == Client(other, MoveLedger(0), |s.log|)
  {
  }

  /** Two clients make the same retraction: the first reads an empty ledger, the second runs to its end, and
      the first then reads the head. */
  function Retried(derive: Derivation, scope: Scope, s: State): State {
    var s1 := Step(derive, scope, s, Advance(1));
    var s2 := Step(derive, scope, Prepare(derive, scope, s1, 2), Advance(2));
    Step(derive, scope, s2, Advance(1))
  }

  /** A transition can be refused although its own operation has been applied and recorded: the ledger and the
      head are read apart.  This is why refusals, unlike successes, do not linearize. */
  lemma RefusedThoughApplied(derive: Derivation, scope: Scope, s: State, claim: Claim, call: Call)
    requires Ready(s, 1, claim, call) && Ready(s, 2, claim, call)
    ensures var after := Retried(derive, scope, s);
            && after.clients.Keys == s.clients.Keys && after.clients[1].call == call
            && after.clients[1].phase.Done? && after.clients[1].phase.answer == Transited(Err(IllegalTransition))
            && call.request.operationId in after.tables.ops
            && after.tables.ops[call.request.operationId] == AppliedTransition(RetractedOutcome(claim, call.request))
  {
    RetractionDecides(scope, claim, call.request, call.policy, call.now);
    hide Decide, Key, RetractedOutcome, Prepare;
    var s1 := Step(derive, scope, s, Advance(1));
    assert s1 == s.(clients := s.clients[1 := s.clients[1].(phase := MoveHead(0))]);
    PrepareDecides(derive, scope, s1, 2, claim, call);
    PreparedWrites(derive, scope, Prepare(derive, scope, s1, 2), 2, claim, call);
  }

  // ----- The operation-ownership premise -----

  /** Two clients retract two claims under one operation id: the first stops before its write, the second runs
      to its end, and the first then writes. */
  function Shared(derive: Derivation, scope: Scope, s: State): State {
    var s1 := Prepare(derive, scope, s, 1);
    var s2 := Step(derive, scope, Prepare(derive, scope, s1, 2), Advance(2));
    Step(derive, scope, s2, Advance(1))
  }

  /** Without the ownership premise a success can go unrecorded: both transitions take effect and are answered
      as successes, but the ledger holds only the second, so a retry of the first is answered with the other
      claim's outcome. */
  lemma SharedOperationGoesUnrecorded(derive: Derivation, scope: Scope, s: State, one: Claim, other: Claim, mine: Call, theirs: Call)
    requires Ready(s, 1, one, mine) && Ready(s, 2, other, theirs) && one.claimId != other.claimId
    requires mine.request.operationId == theirs.request.operationId
    ensures var after := Shared(derive, scope, s);
            var operation := mine.request.operationId;
            && after.clients.Keys == s.clients.Keys && after.clients[1].phase.Done? && after.clients[2].phase.Done?
            && after.clients[1].phase.answer == Transited(Ok(RetractedOutcome(one, mine.request)))
            && after.clients[2].phase.answer == Transited(Ok(RetractedOutcome(other, theirs.request)))
            && operation in after.tables.ops
            && LedgerAnswer(after.tables.ops[operation], mine) == Transited(Ok(RetractedOutcome(other, theirs.request)))
            && RetractedOutcome(one, mine.request) != RetractedOutcome(other, theirs.request)
  {
    assert RetractedOutcome(one, mine.request) != RetractedOutcome(other, theirs.request);
    hide RetractedOutcome, Prepare, Step;
    PrepareDecides(derive, scope, s, 1, one, mine);
    var s1 := Prepare(derive, scope, s, 1);
    PrepareDecides(derive, scope, s1, 2, other, theirs);
    var s2 := Prepare(derive, scope, s1, 2);
    PreparedWrites(derive, scope, s2, 2, other, theirs);
    PreparedWrites(derive, scope, Step(derive, scope, s2, Advance(2)), 1, one, mine);
  }

  // ----- Reads -----

  /** The claim table scanned in key order. */
  ghost function RowsInOrder(rows: map<ClaimId, Row>, ids: set<ClaimId>): seq<Row>
    requires ids <= rows.Keys
    decreases |ids|
  {
    if ids == {} then [] else [rows[Least(ids)]] + RowsInOrder(rows, ids - {Least(ids)})
  }

  lemma {:induction false} RowsAreRecords(rows: map<ClaimId, Row>, claims: map<ClaimId, Claim>, ids: set<ClaimId>)
    requires ids <= rows.Keys && ids <= claims.Keys && forall id :: id in ids ==> rows[id] == RowOf(claims[id])
    ensures CoherentTable(RowsInOrder(rows, ids)) && Records(RowsInOrder(rows, ids)) == InOrder(claims, ids)
    decreases |ids|
  {
    if ids != {} {
      var least := Least(ids);
      var rest := RowsInOrder(rows, ids - {least});
      RowsAreRecords(rows, claims, ids - {least});
      assert rows[least] == RowOf(claims[least]);
      assert Records([rows[least]] + rest) == [claims[least]] + Records(rest);
    }
  }

  /** Both backends read alike: in every reachable state the scanned claim table is ordered, its columns are
      coherent, and its records are the reference store's iteration; so the bounded traversal queries and the
      batched scans return the reference's reports and pages. */
  lemma ReachableTablesReadAlike(derive: Derivation, scope: Scope, owner: Owner, actions: seq<Action>)
    requires OwnedActions(owner, actions)
    ensures var s := Exec(derive, scope, INITIAL, actions);
            var claims, table := SpaceAfter(derive, scope, s.log).claims, RowsInOrder(s.tables.rows, s.tables.rows.Keys);
            && CoherentTable(table) && OrderedTable(table) && Records(table) == InOrder(claims, claims.Keys)
  {
    hide Exec, SpaceAfter, LegalChain, EntryOk, TrustAfter;
    TablesAreReference(derive, scope, owner, actions);
    var s := Exec(derive, scope, INITIAL, actions);
    var claims := SpaceAfter(derive, scope, s.log).claims;
    var table := RowsInOrder(s.tables.rows, s.tables.rows.Keys);
    RowsAreRecords(s.tables.rows, claims, claims.Keys);
    forall id | id in claims ensures claims[id].claimId == id {
      assert ClaimOk(derive, scope, SpaceAfter(derive, scope, s.log), id);
    }
    InOrderAscends(claims, claims.Keys);
    forall i, j | 0 <= i < j < |table| ensures table[i].claimId < table[j].claimId {
      assert Records(table)[i].claimId < Records(table)[j].claimId;
    }
  }

  /** A traversal of the tables at rest. */
  method TraverseTables(t: Request, s: State, rows: seq<Row>, ghost derive: Derivation, ghost scope: Scope,
                        ghost owner: Owner, ghost actions: seq<Action>)
    returns (r: Result<Report, ClaimError>)
    requires OwnedActions(owner, actions) && s == Exec(derive, scope, INITIAL, actions)
    requires rows == RowsInOrder(s.tables.rows, s.tables.rows.Keys) && 1 <= t.nodeBudget
    ensures var claims := SpaceAfter(derive, scope, s.log).claims;
            r == Ok(Traversed(t, InOrder(claims, claims.Keys)))
  {
    hide *;
    ReachableTablesReadAlike(derive, scope, owner, actions);
    r := TraverseSql(t, rows);
  }
}

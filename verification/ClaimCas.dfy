/** The relational store's write protocol: clients whose ledger reads, head reads, statement snapshots and
    guarded writes interleave over three tables.  Every step is one statement, or one half of a writing
    statement: the ledger snapshot it starts from, and the write, which sees the rows current at that moment. */
module ClaimCas {
  import opened Common
  import opened ClaimModel
  import opened ScopeKey
  import opened ClaimSpace
  import opened TraversalSql

  const TRANSITION_CAS_MAX_ATTEMPTS: nat := 8

  /** The claim, transition and operation tables of one scope, by primary key. */
  datatype Tables = Tables(rows: map<ClaimId, Row>, history: map<(ClaimId, nat), Transition>,
                           ops: map<OperationId, LedgerEntry>)

  /** Where a client stands.  `lost` counts the races of its compare-and-set loop, `read` and `fence` are the
      head it decided on; a finished client remembers its answer, how long the log was, and whether it wrote. */
  datatype Phase =
    | AppendStart
    | AppendWrite
    | AppendRecheck
    | AppendOccupied
    | MoveLedger(lost: nat)
    | MoveHead(lost: nat)
    | MoveSnapshot(lost: nat, fence: nat, read: Claim, outcome: Outcome)
    | MoveWrite(lost: nat, fence: nat, read: Claim, outcome: Outcome)
    | Done(answer: Answer, at: nat, wrote: bool)

  /** A call in progress, and the length of the log when it began. */
  datatype Client = Client(call: Call, phase: Phase, begun: nat)

  /** The tables, the clients, and the calls whose writes have taken effect, in order. */
  datatype State = State(tables: Tables, clients: map<nat, Client>, log: seq<Call>)

  const INITIAL: State := State(Tables(map[], map[], map[]), map[], [])

  /** A call begins (over whatever the client was doing, as after a crash), or a client takes its next step. */
  datatype Action = Begin(client: nat, call: Call) | Advance(client: nat)

  function Finish(s: State, client: Client, answer: Answer): Client {
    client.(phase := Done(answer, |s.log|, false))
  }

  /** `INSERT … ON CONFLICT DO NOTHING` on the operation table. */
  function Recorded(ops: map<OperationId, LedgerEntry>, operation: OperationId, entry: LedgerEntry)
    : map<OperationId, LedgerEntry>
  {
    if operation in ops then ops else ops[operation := entry]
  }

  function AppendStep(derive: Derivation, scope: Scope, s: State, client: Client, claim: Claim): (Tables, Client)
    requires client.phase.AppendStart? || client.phase.AppendWrite? || client.phase.AppendRecheck? || client.phase.AppendOccupied?
  {
    var t := s.tables;
    match client.phase
    case AppendStart =>
      var door := AppendDoor(derive, scope, claim);
      if door.Some? then (t, Finish(s, client, Appended(Err(door.value))))
      else if claim.operationId in t.ops then (t, Finish(s, client, LedgerAnswer(t.ops[claim.operationId], client.call)))
      else (t, client.(phase := AppendWrite))
    case AppendWrite =>
      if claim.claimId in t.rows then (t, client.(phase := AppendRecheck))
      else (t.(rows := t.rows[claim.claimId := RowOf(claim)],
               ops := Recorded(t.ops, claim.operationId, AppliedAppend(claim))),
            client.(phase := Done(Appended(Ok(claim)), |s.log|, true)))
    case AppendRecheck =>
      if claim.operationId in t.ops then (t, Finish(s, client, LedgerAnswer(t.ops[claim.operationId], client.call)))
      else (t, client.(phase := AppendOccupied))
    case AppendOccupied =>
      (t, Finish(s, client, Appended(Err(if claim.claimId in t.rows then AlreadyExists else Backend))))
  }

  function MoveStep(scope: Scope, s: State, client: Client, request: TransitionRequest, policy: PromotionPolicy, now: Timestamp)
    : (Tables, Client)
    requires client.phase.MoveLedger? || client.phase.MoveHead? || client.phase.MoveSnapshot? || client.phase.MoveWrite?
  {
    var t, id, operation := s.tables, request.claimId, request.operationId;
    match client.phase
    case MoveLedger(lost) =>
      if lost == TRANSITION_CAS_MAX_ATTEMPTS then (t, Finish(s, client, Transited(Err(Backend))))
      else if operation in t.ops then (t, Finish(s, client, LedgerAnswer(t.ops[operation], client.call)))
      else (t, client.(phase := MoveHead(lost)))
    case MoveHead(lost) =>
      if id !in t.rows then (t, Finish(s, client, Transited(Err(NotFound))))
      else
        var claim, fence := t.rows[id].record, t.rows[id].transitionCount;
        if fence != claim.transitionCount then (t, Finish(s, client, Transited(Err(Backend))))
        else (match Decide(scope.tenant, Key(scope), claim, request, policy, now)
              case Err(error) => (t, Finish(s, client, Transited(Err(error))))
              case Ok(outcome) => (t, client.(phase := MoveSnapshot(lost, fence, claim, outcome))))
    case MoveSnapshot(lost, fence, read, outcome) =>
      if operation in t.ops then (t, Finish(s, client, LedgerAnswer(t.ops[operation], client.call)))
      else (t, client.(phase := MoveWrite(lost, fence, read, outcome)))
    case MoveWrite(lost, fence, read, outcome) =>
      if id !in t.rows || t.rows[id].transitionCount != fence then (t, client.(phase := MoveLedger(lost + 1)))
      else if (id, outcome.claim.transitionCount) in t.history then (t, Finish(s, client, Transited(Err(Backend))))
      else (Tables(t.rows[id := t.rows[id].(trust := outcome.claim.trust,
                                            transitionCount := outcome.claim.transitionCount,
                                            record := outcome.claim)],
                   t.history[(id, outcome.claim.transitionCount) := outcome.transition],
                   Recorded(t.ops, operation, AppliedTransition(outcome))),
            client.(phase := Done(Transited(Ok(outcome)), |s.log|, true)))
  }

  /** The phases of an append, or of a transition, for the call they serve. */
  predicate Fits(client: Client) {
    match client.phase
    case AppendStart | AppendWrite | AppendRecheck | AppendOccupied => client.call.AppendCall?
    case MoveLedger(_) | MoveHead(_) | MoveSnapshot(_, _, _, _) | MoveWrite(_, _, _, _) => client.call.TransitionCall?
    case Done(_, _, _) => true
  }

  function ClientStep(derive: Derivation, scope: Scope, s: State, client: Client): (Tables, Client)
    requires Fits(client)
  {
    if client.phase.Done? then (s.tables, client)
    else
      match client.call
      case AppendCall(claim) => AppendStep(derive, scope, s, client, claim)
      case TransitionCall(request, policy, now) => MoveStep(scope, s, client, request, policy, now)
  }

  /** The log grows by the client's call exactly when its step writes. */
  function Wrote(client: Client, after: Client): bool {
    !client.phase.Done? && after.phase.Done? && after.phase.wrote
  }

  function Step(derive: Derivation, scope: Scope, s: State, a: Action): State {
    match a
    case Begin(c, call) =>
      s.(clients := s.clients[c := Client(call, if call.AppendCall? then AppendStart else MoveLedger(0), |s.log|)])
    case Advance(c) =>
      if c !in s.clients || !Fits(s.clients[c]) then s
      else
        var client := s.clients[c];
        var (tables, after) := ClientStep(derive, scope, s, client);
        State(tables, s.clients[c := after], if Wrote(client, after) then s.log + [client.call] else s.log)
  }

  function Exec(derive: Derivation, scope: Scope, s: State, actions: seq<Action>): State {
    if actions == [] then s
    else Step(derive, scope, Exec(derive, scope, s, actions[..|actions| - 1]), actions[|actions| - 1])
  }

  /** Which claim a transition operation id belongs to; none for an append's. */
  type Owner = OperationId -> Option<ClaimId>

  predicate Owned(owner: Owner, call: Call) {
    match call
    case AppendCall(claim) => owner(claim.operationId) == None
    case TransitionCall(request, _, _) => owner(request.operationId) == Some(request.claimId)
  }

  ghost predicate OwnedActions(owner: Owner, actions: seq<Action>) {
    forall i :: 0 <= i < |actions| && actions[i].Begin? ==> Owned(owner, actions[i].call)
  }

  // ----- The invariant -----

  /** The tables hold exactly the reference space: coherent columns, histories by ordinal, the same ledger. */
  ghost predicate Refines(t: Tables, sp: Space) {
    && t.rows.Keys == sp.claims.Keys
    && (forall id :: id in t.rows ==> t.rows[id] == RowOf(sp.claims[id]))
    && (forall id, n :: (id, n) in t.history <==> id in sp.claims && 1 <= n <= |History(sp, id)|)
    && (forall id, n :: (id, n) in t.history ==> t.history[(id, n)] == History(sp, id)[n - 1])
    && t.ops == sp.operations
  }

  ghost predicate OwnedLedger(owner: Owner, sp: Space) {
    forall operation :: operation in sp.operations ==>
      match sp.operations[operation]
      case AppliedAppend(_) => owner(operation) == None
      case AppliedTransition(outcome) => owner(operation) == Some(outcome.claim.claimId)
  }

  /** How often a claim has been moved; zero when there is none. */
  function CountOf(sp: Space, id: ClaimId): nat {
    if id in sp.claims then sp.claims[id].transitionCount else 0
  }

  /** The reference space as it was when a call began. */
  ghost function Begun(derive: Derivation, scope: Scope, log: seq<Call>, client: Client): Space
    requires client.begun <= |log|
  {
    SpaceAfter(derive, scope, log[..client.begun])
  }

  /** The claim has been moved at least `n` times. */
  ghost predicate MovedBy(sp: Space, id: ClaimId, n: nat) {
    n <= CountOf(sp, id)
  }

  /** The claim has been moved at least `lost` times since the call began. */
  ghost predicate Raced(derive: Derivation, scope: Scope, log: seq<Call>, client: Client, lost: nat)
    requires client.begun <= |log| && client.call.TransitionCall?
  {
    var id := client.call.request.claimId;
    MovedBy(SpaceAfter(derive, scope, log), id, CountOf(Begun(derive, scope, log, client), id) + lost)
  }

  /** A decision is still about the stored record unless the claim has moved past its fence. */
  ghost predicate DecisionOk(scope: Scope, sp: Space, call: Call, fence: nat, read: Claim, outcome: Outcome)
    requires call.TransitionCall?
  {
    var id := call.request.claimId;
    && id in sp.claims && fence <= sp.claims[id].transitionCount
    && (sp.claims[id].transitionCount == fence ==> sp.claims[id] == read)
    && read.transitionCount == fence && read.claimId == id
    && Decide(scope.tenant, Key(scope), read, call.request, call.policy, call.now) == Ok(outcome)
  }

  /** The call's operation was unspent when it began and has been applied by another client since. */
  ghost predicate AppliedSince(derive: Derivation, scope: Scope, log: seq<Call>, client: Client)
    requires client.begun <= |log|
  {
    && OperationOf(client.call) !in Begun(derive, scope, log, client).operations
    && OperationOf(client.call) in SpaceAfter(derive, scope, log).operations
  }

  /** What an answer given now says about the reference store: it is the reference's own answer, or a transition was
      refused on a head read while its operation was being applied by another client, or it gave up after its claim
      was moved eight times during the call. */
  ghost predicate Justified(derive: Derivation, scope: Scope, log: seq<Call>, client: Client, answer: Answer)
    requires client.begun <= |log|
  {
    || Serve(derive, scope, SpaceAfter(derive, scope, log), client.call).1 == answer
    || (&& client.call.TransitionCall? && answer.Transited? && answer.transition.Err?
        && AppliedSince(derive, scope, log, client))
    || (&& client.call.TransitionCall? && answer == Transited(Err(Backend))
        && Raced(derive, scope, log, client, TRANSITION_CAS_MAX_ATTEMPTS))
  }

  ghost predicate Explained(derive: Derivation, scope: Scope, log: seq<Call>, client: Client)
    requires client.phase.Done? && client.begun <= client.phase.at <= |log|
  {
    Justified(derive, scope, log[..client.phase.at], client, client.phase.answer)
  }

  ghost predicate DoneOk(derive: Derivation, scope: Scope, log: seq<Call>, client: Client)
    requires client.phase.Done?
  {
    var at, answer := client.phase.at, client.phase.answer;
    && client.begun <= at <= |log|
    && Explained(derive, scope, log, client)
    && (Succeeded(answer) ==> Serve(derive, scope, SpaceAfter(derive, scope, log[..at]), client.call).1 == answer)
    && (client.phase.wrote ==> at < |log| && log[at] == client.call && Succeeded(answer))
  }

  ghost predicate ClientOk(derive: Derivation, scope: Scope, owner: Owner, log: seq<Call>, client: Client) {
    var sp := SpaceAfter(derive, scope, log);
    && Fits(client) && Owned(owner, client.call) && client.begun <= |log|
    && match client.phase
       case AppendStart => true
       case AppendWrite => AppendDoor(derive, scope, client.call.claim).None?
       case AppendRecheck => AppendDoor(derive, scope, client.call.claim).None? && client.call.claim.claimId in sp.claims
       case AppendOccupied =>
         && AppendDoor(derive, scope, client.call.claim).None? && client.call.claim.claimId in sp.claims
         && client.call.claim.operationId !in sp.operations
       case MoveLedger(lost) => lost <= TRANSITION_CAS_MAX_ATTEMPTS && Raced(derive, scope, log, client, lost)
       case MoveHead(lost) =>
         && lost < TRANSITION_CAS_MAX_ATTEMPTS && Raced(derive, scope, log, client, lost)
         && client.call.request.operationId !in Begun(derive, scope, log, client).operations
       case MoveSnapshot(lost, fence, read, outcome) =>
         && lost < TRANSITION_CAS_MAX_ATTEMPTS && DecisionOk(scope, sp, client.call, fence, read, outcome)
         && CountOf(Begun(derive, scope, log, client), client.call.request.claimId) + lost <= fence
       case MoveWrite(lost, fence, read, outcome) =>
         && lost < TRANSITION_CAS_MAX_ATTEMPTS && DecisionOk(scope, sp, client.call, fence, read, outcome)
         && CountOf(Begun(derive, scope, log, client), client.call.request.claimId) + lost <= fence
         && (client.call.request.operationId in sp.operations
             ==> fence < sp.claims[client.call.request.claimId].transitionCount)
       case Done(_, _, _) => DoneOk(derive, scope, log, client)
  }

  /** Every logged call was a fresh success of the reference store. */
  ghost predicate FreshLog(derive: Derivation, scope: Scope, log: seq<Call>) {
    forall i :: 0 <= i < |log| ==> Fresh(derive, scope, SpaceAfter(derive, scope, log[..i]), log[i])
  }

  ghost predicate Fresh(derive: Derivation, scope: Scope, sp: Space, call: Call) {
    OperationOf(call) !in sp.operations && Succeeded(Serve(derive, scope, sp, call).1)
  }

  ghost predicate Inv(derive: Derivation, scope: Scope, owner: Owner, s: State) {
    var sp := SpaceAfter(derive, scope, s.log);
    && Refines(s.tables, sp) && OwnedLedger(owner, sp) && FreshLog(derive, scope, s.log)
    && forall c :: c in s.clients ==> ClientOk(derive, scope, owner, s.log, s.clients[c])
  }

  // ----- The reference space between writes -----

  lemma SpaceAfterNext(derive: Derivation, scope: Scope, log: seq<Call>, call: Call)
    ensures SpaceAfter(derive, scope, log + [call]) == Serve(derive, scope, SpaceAfter(derive, scope, log), call).0
  {
    hide Serve;
    assert (log + [call])[..|log|] == log;
  }

  /** A fresh successful call records its operation, and either adds one new claim or moves one claim by one. */
  ghost predicate OneMove(sp: Space, call: Call, after: Space) {
    && OperationOf(call) !in sp.operations
    && match call
       case AppendCall(claim) =>
         && claim.claimId !in sp.claims
         && after == sp.(claims := sp.claims[claim.claimId := claim],
                         operations := sp.operations[claim.operationId := AppliedAppend(claim)])
       case TransitionCall(request, _, _) =>
         && request.claimId in sp.claims && after.claims.Keys == sp.claims.Keys
         && after.claims[request.claimId].transitionCount == sp.claims[request.claimId].transitionCount + 1
         && (forall id :: id in sp.claims && id != request.claimId ==> after.claims[id] == sp.claims[id])
         && exists outcome: Outcome :: outcome.claim.claimId == request.claimId
              && after.operations == sp.operations[request.operationId := AppliedTransition(outcome)]
  }

  lemma FreshIsOneMove(derive: Derivation, scope: Scope, sp: Space, call: Call)
    requires SpaceInv(derive, scope, sp) && Fresh(derive, scope, sp, call)
    ensures OneMove(sp, call, Serve(derive, scope, sp, call).0)
    ensures call.AppendCall? ==> AppendDoor(derive, scope, call.claim).None?
  {
    hide AppendDoor, Decide, LegalChain, TrustAfter, Key, EntryOk;
    match call {
      case AppendCall(_) =>
      case TransitionCall(request, policy, now) =>
        assert ClaimOk(derive, scope, sp, request.claimId);
        DecidedOutcome(scope.tenant, Key(scope), sp.claims[request.claimId], request, policy, now);
    }
  }

  lemma OneMoveOwned(owner: Owner, sp: Space, call: Call, after: Space)
    requires OwnedLedger(owner, sp) && Owned(owner, call) && OneMove(sp, call, after)
    ensures OwnedLedger(owner, after)
  {
  }

  lemma NextFresh(derive: Derivation, scope: Scope, log: seq<Call>, call: Call)
    requires FreshLog(derive, scope, log) && Fresh(derive, scope, SpaceAfter(derive, scope, log), call)
    ensures FreshLog(derive, scope, log + [call])
  {
    hide Fresh, SpaceAfter;
    var after := log + [call];
    forall i | 0 <= i < |after| ensures Fresh(derive, scope, SpaceAfter(derive, scope, after[..i]), after[i]) {
      if i < |log| {
        assert after[..i] == log[..i] && after[i] == log[i];
      } else {
        assert after[..i] == log;
      }
    }
  }

  // ----- Clients that are not acting -----

  lemma MovedByStays(sp: Space, call: Call, after: Space, id: ClaimId, n: nat)
    requires OneMove(sp, call, after) && MovedBy(sp, id, n)
    ensures MovedBy(after, id, n)
  {
  }

  lemma DecisionStays(scope: Scope, sp: Space, call: Call, after: Space, mine: Call, fence: nat, read: Claim, outcome: Outcome)
    requires OneMove(sp, call, after) && mine.TransitionCall? && DecisionOk(scope, sp, mine, fence, read, outcome)
    ensures DecisionOk(scope, after, mine, fence, read, outcome)
  {
    hide Decide, Key;
  }

  lemma DoneStays(derive: Derivation, scope: Scope, log: seq<Call>, call: Call, client: Client)
    requires client.phase.Done? && DoneOk(derive, scope, log, client)
    ensures DoneOk(derive, scope, log + [call], client)
  {
    hide Serve, SpaceAfter, Justified;
    assert (log + [call])[..client.phase.at] == log[..client.phase.at];
  }

  /** An occupied append's operation stays unspent: only an append of the same id could spend it. */
  lemma OccupiedStays(derive: Derivation, scope: Scope, owner: Owner, sp: Space, call: Call, after: Space, claim: Claim)
    requires OneMove(sp, call, after) && Owned(owner, call) && owner(claim.operationId) == None
    requires call.AppendCall? ==> AppendDoor(derive, scope, call.claim).None?
    requires AppendDoor(derive, scope, claim).None? && claim.claimId in sp.claims && claim.operationId !in sp.operations
    ensures claim.claimId in after.claims && claim.operationId !in after.operations
  {
    hide AppendDoor, Key;
    DoorPassed(derive, scope, claim);
    if call.AppendCall? {
      DoorPassed(derive, scope, call.claim);
    }
  }

  lemma SpentPastFence(owner: Owner, sp: Space, call: Call, after: Space, request: TransitionRequest, fence: nat)
    requires OneMove(sp, call, after) && Owned(owner, call) && owner(request.operationId) == Some(request.claimId)
    requires request.claimId in sp.claims && fence <= sp.claims[request.claimId].transitionCount
    requires request.operationId in sp.operations ==> fence < sp.claims[request.claimId].transitionCount
    ensures request.claimId in after.claims
    ensures request.operationId in after.operations ==> fence < after.claims[request.claimId].transitionCount
  {
  }

  /** Another client's write keeps everything a client relies on. */
  lemma ClientStays(derive: Derivation, scope: Scope, owner: Owner, log: seq<Call>, call: Call, client: Client)
    requires ClientOk(derive, scope, owner, log, client) && Owned(owner, call)
    requires Fresh(derive, scope, SpaceAfter(derive, scope, log), call)
    ensures ClientOk(derive, scope, owner, log + [call], client)
  {
    hide Serve, SpaceAfter, SpaceInv, OneMove, AppendDoor, DecisionOk, DoneOk, MovedBy, Fresh;
    var sp, after := SpaceAfter(derive, scope, log), SpaceAfter(derive, scope, log + [call]);
    assert (log + [call])[..client.begun] == log[..client.begun];
    SpaceAfterNext(derive, scope, log, call);
    SpaceRunKeeps(derive, scope, log);
    FreshIsOneMove(derive, scope, sp, call);
    match client.phase {
      case AppendStart =>
      case AppendWrite =>
      case AppendRecheck => KeysStay(sp, call, after);
      case AppendOccupied => OccupiedStays(derive, scope, owner, sp, call, after, client.call.claim);
      case MoveLedger(lost) =>
        var id := client.call.request.claimId;
        MovedByStays(sp, call, after, id, CountOf(Begun(derive, scope, log, client), id) + lost);
      case MoveHead(lost) =>
        var id := client.call.request.claimId;
        MovedByStays(sp, call, after, id, CountOf(Begun(derive, scope, log, client), id) + lost);
      case MoveSnapshot(_, fence, read, outcome) =>
        DecisionStays(scope, sp, call, after, client.call, fence, read, outcome);
      case MoveWrite(_, fence, read, outcome) =>
        DecisionStays(scope, sp, call, after, client.call, fence, read, outcome);
        DecisionBound(scope, sp, client.call, fence, read, outcome);
        SpentPastFence(owner, sp, call, after, client.call.request, fence);
      case Done(_, _, _) => DoneStays(derive, scope, log, call, client);
    }
  }

  lemma KeysStay(sp: Space, call: Call, after: Space)
    requires OneMove(sp, call, after)
    ensures sp.claims.Keys <= after.claims.Keys
  {
  }

  lemma DecisionBound(scope: Scope, sp: Space, call: Call, fence: nat, read: Claim, outcome: Outcome)
    requires call.TransitionCall? && DecisionOk(scope, sp, call, fence, read, outcome)
    ensures call.request.claimId in sp.claims && fence <= sp.claims[call.request.claimId].transitionCount
  {
  }

  // ----- The acting client -----

  /** What one step of a client must establish. */
  ghost predicate StepOk(derive: Derivation, scope: Scope, owner: Owner, s: State, client: Client, t: Tables, after: Client) {
    var sp := SpaceAfter(derive, scope, s.log);
    if Wrote(client, after) then
      && Fresh(derive, scope, sp, client.call)
      && Refines(t, Serve(derive, scope, sp, client.call).0)
      && ClientOk(derive, scope, owner, s.log + [client.call], after)
    else t == s.tables && ClientOk(derive, scope, owner, s.log, after)
  }

  ghost predicate Before(derive: Derivation, scope: Scope, owner: Owner, s: State, client: Client) {
    var sp := SpaceAfter(derive, scope, s.log);
    && Refines(s.tables, sp) && SpaceInv(derive, scope, sp) && OwnedLedger(owner, sp)
    && ClientOk(derive, scope, owner, s.log, client) && !client.phase.Done?
  }

  /** Finishing without a write is right whenever the answer is justified now. */
  lemma FinishOk(derive: Derivation, scope: Scope, owner: Owner, s: State, client: Client, answer: Answer)
    requires Fits(client) && Owned(owner, client.call) && client.begun <= |s.log|
    requires Justified(derive, scope, s.log, client, answer)
    requires Succeeded(answer) ==> Serve(derive, scope, SpaceAfter(derive, scope, s.log), client.call).1 == answer
    ensures ClientOk(derive, scope, owner, s.log, Finish(s, client, answer))
  {
    hide Serve, SpaceAfter, Raced, AppliedSince;
    assert s.log[..|s.log|] == s.log;
    var done := Finish(s, client, answer);
    assert Justified(derive, scope, s.log, done, answer) by { SameCall(derive, scope, s.log, client, done, answer); }
  }

  lemma SameCall(derive: Derivation, scope: Scope, log: seq<Call>, client: Client, other: Client, answer: Answer)
    requires client.begun <= |log| && other.begun == client.begun && other.call == client.call
    requires Justified(derive, scope, log, client, answer)
    ensures Justified(derive, scope, log, other, answer)
  {
    hide Serve, SpaceAfter;
  }

  /** The ledger answers a spent operation as the reference does. */
  lemma LedgerIsReference(derive: Derivation, scope: Scope, sp: Space, call: Call)
    requires OperationOf(call) in sp.operations && WellFormed(derive, scope, call)
    ensures Serve(derive, scope, sp, call).1 == LedgerAnswer(sp.operations[OperationOf(call)], call)
  {
    hide AppendDoor, Decide, Key;
  }

  lemma AppendStartOk(derive: Derivation, scope: Scope, owner: Owner, s: State, client: Client)
    requires Before(derive, scope, owner, s, client) && client.phase.AppendStart?
    ensures var (t, after) := AppendStep(derive, scope, s, client, client.call.claim);
            StepOk(derive, scope, owner, s, client, t, after)
  {
    hide Serve, SpaceAfter, SpaceInv, AppendDoor, ClientOk, LedgerAnswer, OwnedLedger;
    ClientBasics(derive, scope, owner, s.log, client);
    var sp, claim := SpaceAfter(derive, scope, s.log), client.call.claim;
    var door := AppendDoor(derive, scope, claim);
    if door.Some? {
      DoorRefuses(derive, scope, sp, claim);
      FinishOk(derive, scope, owner, s, client, Appended(Err(door.value)));
    } else if claim.operationId in s.tables.ops {
      LedgerIsReference(derive, scope, sp, client.call);
      FinishOk(derive, scope, owner, s, client, LedgerAnswer(sp.operations[claim.operationId], client.call));
    } else {
      AppendWriteOk(derive, scope, owner, s.log, client);
    }
  }

  lemma ClientBasics(derive: Derivation, scope: Scope, owner: Owner, log: seq<Call>, client: Client)
    requires ClientOk(derive, scope, owner, log, client)
    ensures Fits(client) && Owned(owner, client.call) && client.begun <= |log|
  {
  }

  lemma DoorRefuses(derive: Derivation, scope: Scope, sp: Space, claim: Claim)
    requires AppendDoor(derive, scope, claim).Some?
    ensures Serve(derive, scope, sp, AppendCall(claim)).1 == Appended(Err(AppendDoor(derive, scope, claim).value))
  {
    hide AppendDoor;
  }

  lemma AppendWriteOk(derive: Derivation, scope: Scope, owner: Owner, log: seq<Call>, client: Client)
    requires ClientOk(derive, scope, owner, log, client) && client.phase.AppendStart?
    requires AppendDoor(derive, scope, client.call.claim).None?
    ensures ClientOk(derive, scope, owner, log, client.(phase := AppendWrite))
  {
  }

  lemma SpentAppendIsStored(derive: Derivation, scope: Scope, sp: Space, operation: OperationId)
    requires SpaceInv(derive, scope, sp) && operation in sp.operations && sp.operations[operation].AppliedAppend?
    ensures derive(Key(scope), operation) in sp.claims
  {
    hide LegalChain, TrustAfter, Key;
    assert EntryOk(sp, operation);
    assert ClaimOk(derive, scope, sp, sp.operations[operation].claim.claimId);
  }

  /** With every operation owned, a free claim id means an unspent append operation. */
  lemma FreeIdMeansFresh(derive: Derivation, scope: Scope, owner: Owner, sp: Space, claim: Claim)
    requires SpaceInv(derive, scope, sp) && OwnedLedger(owner, sp) && owner(claim.operationId) == None
    requires AppendDoor(derive, scope, claim).None? && claim.claimId !in sp.claims
    ensures claim.operationId !in sp.operations
    ensures Serve(derive, scope, sp, AppendCall(claim))
            == (sp.(claims := sp.claims[claim.claimId := claim],
                    operations := sp.operations[claim.operationId := AppliedAppend(claim)]), Appended(Ok(claim)))
  {
    hide AppendDoor, SpaceInv, Key;
    DoorPassed(derive, scope, claim);
    if claim.operationId in sp.operations {
      SpentAppendIsStored(derive, scope, sp, claim.operationId);
      assert false;
    }
  }

  lemma RefinesAppended(derive: Derivation, scope: Scope, t: Tables, sp: Space, claim: Claim)
    requires Refines(t, sp) && SpaceInv(derive, scope, sp)
    requires claim.claimId !in sp.claims && claim.operationId !in sp.operations
    ensures Refines(t.(rows := t.rows[claim.claimId := RowOf(claim)], ops := t.ops[claim.operationId := AppliedAppend(claim)]),
                    sp.(claims := sp.claims[claim.claimId := claim],
                        operations := sp.operations[claim.operationId := AppliedAppend(claim)]))
  {
    hide ClaimOk, EntryOk;
  }

  /** A write ends the call with the reference's own answer at its log position. */
  lemma WrittenOk(derive: Derivation, scope: Scope, owner: Owner, s: State, client: Client, answer: Answer)
    requires Fits(client) && Owned(owner, client.call) && client.begun <= |s.log| && Succeeded(answer)
    requires Serve(derive, scope, SpaceAfter(derive, scope, s.log), client.call).1 == answer
    ensures ClientOk(derive, scope, owner, s.log + [client.call], client.(phase := Done(answer, |s.log|, true)))
  {
    hide Serve, SpaceAfter;
    assert (s.log + [client.call])[..|s.log|] == s.log;
  }

  lemma AppendInsertOk(derive: Derivation, scope: Scope, owner: Owner, s: State, client: Client)
    requires Before(derive, scope, owner, s, client) && client.phase.AppendWrite?
    ensures var (t, after) := AppendStep(derive, scope, s, client, client.call.claim);
            StepOk(derive, scope, owner, s, client, t, after)
  {
    hide Serve, SpaceAfter, SpaceInv, AppendDoor, OwnedLedger, RowOf, DoneOk;
    var sp, claim := SpaceAfter(derive, scope, s.log), client.call.claim;
    if claim.claimId !in s.tables.rows {
      FreeIdMeansFresh(derive, scope, owner, sp, claim);
      RefinesAppended(derive, scope, s.tables, sp, claim);
      WrittenOk(derive, scope, owner, s, client, Appended(Ok(claim)));
      hide Refines;
    }
  }

  lemma AppendRecheckOk(derive: Derivation, scope: Scope, owner: Owner, s: State, client: Client)
    requires Before(derive, scope, owner, s, client) && client.phase.AppendRecheck?
    ensures var (t, after) := AppendStep(derive, scope, s, client, client.call.claim);
            StepOk(derive, scope, owner, s, client, t, after)
  {
    hide Serve, SpaceAfter, SpaceInv, AppendDoor, LedgerAnswer, OwnedLedger, DoneOk;
    var sp, claim := SpaceAfter(derive, scope, s.log), client.call.claim;
    if claim.operationId in s.tables.ops {
      LedgerIsReference(derive, scope, sp, client.call);
      FinishOk(derive, scope, owner, s, client, LedgerAnswer(sp.operations[claim.operationId], client.call));
    }
  }

  lemma AppendOccupiedOk(derive: Derivation, scope: Scope, owner: Owner, s: State, client: Client)
    requires Before(derive, scope, owner, s, client) && client.phase.AppendOccupied?
    ensures var (t, after) := AppendStep(derive, scope, s, client, client.call.claim);
            StepOk(derive, scope, owner, s, client, t, after)
  {
    hide Serve, SpaceAfter, SpaceInv, AppendDoor, OwnedLedger, DoneOk;
    var sp, claim := SpaceAfter(derive, scope, s.log), client.call.claim;
    OccupiedRefuses(derive, scope, sp, claim);
    FinishOk(derive, scope, owner, s, client, Appended(Err(AlreadyExists)));
  }

  lemma OccupiedRefuses(derive: Derivation, scope: Scope, sp: Space, claim: Claim)
    requires AppendDoor(derive, scope, claim).None? && claim.claimId in sp.claims && claim.operationId !in sp.operations
    ensures Serve(derive, scope, sp, AppendCall(claim)).1 == Appended(Err(AlreadyExists))
  {
    hide AppendDoor;
  }

  lemma MoveLedgerOk(derive: Derivation, scope: Scope, owner: Owner, s: State, client: Client)
    requires Before(derive, scope, owner, s, client) && client.phase.MoveLedger?
    ensures var (t, after) := MoveStep(scope, s, client, client.call.request, client.call.policy, client.call.now);
            StepOk(derive, scope, owner, s, client, t, after)
  {
    hide Serve, SpaceAfter, SpaceInv, LedgerAnswer, OwnedLedger, DoneOk, MovedBy;
    var sp, request := SpaceAfter(derive, scope, s.log), client.call.request;
    if client.phase.lost == TRANSITION_CAS_MAX_ATTEMPTS {
      FinishOk(derive, scope, owner, s, client, Transited(Err(Backend)));
    } else if request.operationId in s.tables.ops {
      LedgerIsReference(derive, scope, sp, client.call);
      FinishOk(derive, scope, owner, s, client, LedgerAnswer(sp.operations[request.operationId], client.call));
    } else {
      UnspentSince(derive, scope, s.log, client.begun, request.operationId);
    }
  }

  lemma UnspentSince(derive: Derivation, scope: Scope, log: seq<Call>, begun: nat, operation: OperationId)
    requires begun <= |log| && operation !in SpaceAfter(derive, scope, log).operations
    ensures operation !in SpaceAfter(derive, scope, log[..begun]).operations
  {
    hide SpaceAfter;
    assert log[..begun] + log[begun..] == log;
    if operation in SpaceAfter(derive, scope, log[..begun]).operations {
      LaterKeepsLedger(derive, scope, log[..begun], log[begun..], operation);
    }
  }

  /** What the reference answers an unspent transition, from the claim it holds. */
  lemma ReferenceDecides(derive: Derivation, scope: Scope, sp: Space, call: Call)
    requires call.TransitionCall? && call.request.operationId !in sp.operations
    ensures call.request.claimId !in sp.claims ==> Serve(derive, scope, sp, call).1 == Transited(Err(NotFound))
    ensures call.request.claimId in sp.claims ==>
              var decided := Decide(scope.tenant, Key(scope), sp.claims[call.request.claimId], call.request, call.policy, call.now);
              && Serve(derive, scope, sp, call).1 == Transited(decided)
              && (decided.Ok? ==> Serve(derive, scope, sp, call).0 == Applied(sp, call.request.operationId, decided.value))
  {
    hide Decide, Key;
  }

  lemma MoveHeadOk(derive: Derivation, scope: Scope, owner: Owner, s: State, client: Client)
    requires Before(derive, scope, owner, s, client) && client.phase.MoveHead?
    ensures var (t, after) := MoveStep(scope, s, client, client.call.request, client.call.policy, client.call.now);
            StepOk(derive, scope, owner, s, client, t, after)
  {
    hide Serve, SpaceAfter, SpaceInv, OwnedLedger, DoneOk, Decide, Key;
    var sp, request := SpaceAfter(derive, scope, s.log), client.call.request;
    if request.operationId !in sp.operations {
      ReferenceDecides(derive, scope, sp, client.call);
    }
    if request.claimId !in s.tables.rows {
      FinishOk(derive, scope, owner, s, client, Transited(Err(NotFound)));
    } else {
      StoredUnderItsId(derive, scope, sp, request.claimId);
      var claim := s.tables.rows[request.claimId].record;
      var decided := Decide(scope.tenant, Key(scope), claim, request, client.call.policy, client.call.now);
      if decided.Err? {
        FinishOk(derive, scope, owner, s, client, Transited(Err(decided.error)));
      }
    }
  }

  lemma StoredUnderItsId(derive: Derivation, scope: Scope, sp: Space, id: ClaimId)
    requires SpaceInv(derive, scope, sp) && id in sp.claims
    ensures sp.claims[id].claimId == id && |History(sp, id)| == sp.claims[id].transitionCount
  {
    hide LegalChain, TrustAfter, EntryOk;
    assert ClaimOk(derive, scope, sp, id);
  }

  lemma MoveSnapshotOk(derive: Derivation, scope: Scope, owner: Owner, s: State, client: Client)
    requires Before(derive, scope, owner, s, client) && client.phase.MoveSnapshot?
    ensures var (t, after) := MoveStep(scope, s, client, client.call.request, client.call.policy, client.call.now);
            StepOk(derive, scope, owner, s, client, t, after)
  {
    hide Serve, SpaceAfter, SpaceInv, LedgerAnswer, OwnedLedger, DoneOk, DecisionOk;
    var sp, request := SpaceAfter(derive, scope, s.log), client.call.request;
    if request.operationId in s.tables.ops {
      LedgerIsReference(derive, scope, sp, client.call);
      FinishOk(derive, scope, owner, s, client, LedgerAnswer(sp.operations[request.operationId], client.call));
    }
  }

  lemma RefinesApplied(t: Tables, sp: Space, operation: OperationId, outcome: Outcome)
    requires Refines(t, sp) && outcome.claim.claimId in sp.claims && operation !in sp.operations
    requires var id := outcome.claim.claimId;
             && |History(sp, id)| + 1 == outcome.claim.transitionCount
             && outcome.claim == sp.claims[id].(trust := outcome.claim.trust, transitionCount := outcome.claim.transitionCount)
    ensures var id, n := outcome.claim.claimId, outcome.claim.transitionCount;
            && (id, n) !in t.history
            && Refines(Tables(t.rows[id := t.rows[id].(trust := outcome.claim.trust, transitionCount := n, record := outcome.claim)],
                              t.history[(id, n) := outcome.transition],
                              t.ops[operation := AppliedTransition(outcome)]),
                       Applied(sp, operation, outcome))
  {
  }

  lemma MoveWriteOk(derive: Derivation, scope: Scope, owner: Owner, s: State, client: Client)
    requires Before(derive, scope, owner, s, client) && client.phase.MoveWrite?
    ensures var (t, after) := MoveStep(scope, s, client, client.call.request, client.call.policy, client.call.now);
            StepOk(derive, scope, owner, s, client, t, after)
  {
    hide Serve, SpaceAfter, SpaceInv, OwnedLedger, DoneOk, Decide, Key, Applied;
    var sp, request := SpaceAfter(derive, scope, s.log), client.call.request;
    var outcome := client.phase.outcome;
    if s.tables.rows[request.claimId].transitionCount == client.phase.fence {
      StoredUnderItsId(derive, scope, sp, request.claimId);
      DecidedOutcome(scope.tenant, Key(scope), client.phase.read, request, client.call.policy, client.call.now);
      ReferenceDecides(derive, scope, sp, client.call);
      RefinesApplied(s.tables, sp, request.operationId, outcome);
      WrittenOk(derive, scope, owner, s, client, Transited(Ok(outcome)));
      hide Refines;
    }
  }

  lemma ClientStepOk(derive: Derivation, scope: Scope, owner: Owner, s: State, client: Client)
    requires Before(derive, scope, owner, s, client)
    ensures Fits(client)
    ensures var (t, after) := ClientStep(derive, scope, s, client);
            StepOk(derive, scope, owner, s, client, t, after)
  {
    assert Fits(client);
    hide Before, StepOk, AppendStep, MoveStep;
    match client.phase {
      case AppendStart => AppendStartOk(derive, scope, owner, s, client);
      case AppendWrite => AppendInsertOk(derive, scope, owner, s, client);
      case AppendRecheck => AppendRecheckOk(derive, scope, owner, s, client);
      case AppendOccupied => AppendOccupiedOk(derive, scope, owner, s, client);
      case MoveLedger(_) => MoveLedgerOk(derive, scope, owner, s, client);
      case MoveHead(_) => MoveHeadOk(derive, scope, owner, s, client);
      case MoveSnapshot(_, _, _, _) => MoveSnapshotOk(derive, scope, owner, s, client);
      case MoveWrite(_, _, _, _) => MoveWriteOk(derive, scope, owner, s, client);
    }
  }

  // ----- Runs -----

  lemma AdvanceKeeps(derive: Derivation, scope: Scope, owner: Owner, s: State, c: nat)
    requires Inv(derive, scope, owner, s) && c in s.clients && !s.clients[c].phase.Done?
    ensures Inv(derive, scope, owner, Step(derive, scope, s, Advance(c)))
  {
    hide SpaceAfter, SpaceInv, Refines, OwnedLedger, FreshLog, ClientOk, ClientStep, Serve, Fresh, OneMove;
    var sp, client := SpaceAfter(derive, scope, s.log), s.clients[c];
    SpaceRunKeeps(derive, scope, s.log);
    ClientStepOk(derive, scope, owner, s, client);
    var after := Step(derive, scope, s, Advance(c));
    if Wrote(client, ClientStep(derive, scope, s, client).1) {
      ClientBasics(derive, scope, owner, s.log, client);
      SpaceAfterNext(derive, scope, s.log, client.call);
      FreshIsOneMove(derive, scope, sp, client.call);
      OneMoveOwned(owner, sp, client.call, Serve(derive, scope, sp, client.call).0);
      NextFresh(derive, scope, s.log, client.call);
      forall other | other in after.clients ensures ClientOk(derive, scope, owner, after.log, after.clients[other]) {
        if other != c {
          ClientStays(derive, scope, owner, s.log, client.call, s.clients[other]);
        }
      }
    }
  }

  lemma StepKeeps(derive: Derivation, scope: Scope, owner: Owner, s: State, a: Action)
    requires Inv(derive, scope, owner, s) && (a.Begin? ==> Owned(owner, a.call))
    ensures Inv(derive, scope, owner, Step(derive, scope, s, a))
  {
    hide SpaceAfter, Refines, OwnedLedger, FreshLog, AppendStep, MoveStep;
    assert s.log[..|s.log|] == s.log;
    match a {
      case Begin(_, _) =>
      case Advance(c) =>
        if c in s.clients && !s.clients[c].phase.Done? {
          AdvanceKeeps(derive, scope, owner, s, c);
        }
    }
  }

  lemma {:induction false} RunKeeps(derive: Derivation, scope: Scope, owner: Owner, s: State, actions: seq<Action>)
    requires Inv(derive, scope, owner, s) && OwnedActions(owner, actions)
    ensures Inv(derive, scope, owner, Exec(derive, scope, s, actions))
    decreases |actions|
  {
    hide Inv, Step;
    if actions != [] {
      RunKeeps(derive, scope, owner, s, actions[..|actions| - 1]);
      StepKeeps(derive, scope, owner, Exec(derive, scope, s, actions[..|actions| - 1]), actions[|actions| - 1]);
    }
  }

  lemma InitialOk(derive: Derivation, scope: Scope, owner: Owner)
    ensures Inv(derive, scope, owner, INITIAL)
  {
  }

  // ----- The theorems -----

  /** Over every interleaving the three tables are exactly the reference space after the logged calls, and every
      denormalized column agrees with its record, so the drift refusal is never reached. */
  lemma TablesAreReference(derive: Derivation, scope: Scope, owner: Owner, actions: seq<Action>)
    requires OwnedActions(owner, actions)
    ensures var s := Exec(derive, scope, INITIAL, actions);
            && Refines(s.tables, SpaceAfter(derive, scope, s.log))
            && SpaceInv(derive, scope, SpaceAfter(derive, scope, s.log))
            && forall id :: id in s.tables.rows ==> Coherent(s.tables.rows[id])
  {
    hide SpaceInv, SpaceAfter, Exec, ClientOk, FreshLog, OwnedLedger;
    InitialOk(derive, scope, owner);
    RunKeeps(derive, scope, owner, INITIAL, actions);
    SpaceRunKeeps(derive, scope, Exec(derive, scope, INITIAL, actions).log);
  }

  /** Every finished call is explained by the reference store at a moment between its start and its end: a
      success is the reference's own answer there (its write, or the replayed original), an append is always
      the reference's own answer, and a refused transition is too unless its operation was applied by another client
      during the call, or it gave up after its claim was moved eight times during the call. */
  lemma AnswersLinearize(derive: Derivation, scope: Scope, owner: Owner, actions: seq<Action>, c: nat)
    requires OwnedActions(owner, actions) && c in Exec(derive, scope, INITIAL, actions).clients
    requires Exec(derive, scope, INITIAL, actions).clients[c].phase.Done?
    ensures var s := Exec(derive, scope, INITIAL, actions);
            var client := s.clients[c];
            var at, answer := client.phase.at, client.phase.answer;
            && client.begun <= at <= |s.log|
            && (var start, end := SpaceAfter(derive, scope, s.log[..client.begun]), SpaceAfter(derive, scope, s.log[..at]);
                || Serve(derive, scope, end, client.call).1 == answer
                || (&& client.call.TransitionCall? && answer.Transited? && answer.transition.Err?
                    && client.call.request.operationId !in start.operations
                    && client.call.request.operationId in end.operations)
                || (&& client.call.TransitionCall? && answer == Transited(Err(Backend))
                    && CountOf(start, client.call.request.claimId) + TRANSITION_CAS_MAX_ATTEMPTS
                       <= CountOf(end, client.call.request.claimId)))
            && (client.phase.wrote ==> at < |s.log| && s.log[at] == client.call && Succeeded(answer))
  {
    hide Serve, SpaceAfter, Exec, Refines, FreshLog, OwnedLedger;
    InitialOk(derive, scope, owner);
    RunKeeps(derive, scope, owner, INITIAL, actions);
    var s := Exec(derive, scope, INITIAL, actions);
    var client := s.clients[c];
    assert ClientOk(derive, scope, owner, s.log, client);
    assert s.log[..client.phase.at][..client.begun] == s.log[..client.begun];
  }

  /** Every lost race is another client's move: a transition that has gone round its loop `lost` times has seen its
      claim moved at least that often since it began. */
  lemma LostRacesAreMoves(derive: Derivation, scope: Scope, owner: Owner, actions: seq<Action>, c: nat)
    requires OwnedActions(owner, actions) && c in Exec(derive, scope, INITIAL, actions).clients
    requires Exec(derive, scope, INITIAL, actions).clients[c].phase.MoveLedger?
    ensures var s := Exec(derive, scope, INITIAL, actions);
            var client := s.clients[c];
            && client.call.TransitionCall? && client.begun <= |s.log| && client.phase.lost <= TRANSITION_CAS_MAX_ATTEMPTS
            && CountOf(SpaceAfter(derive, scope, s.log[..client.begun]), client.call.request.claimId) + client.phase.lost
               <= CountOf(SpaceAfter(derive, scope, s.log), client.call.request.claimId)
  {
    hide Serve, SpaceAfter, Exec, Refines, FreshLog, OwnedLedger;
    InitialOk(derive, scope, owner);
    RunKeeps(derive, scope, owner, INITIAL, actions);
    var s := Exec(derive, scope, INITIAL, actions);
    assert ClientOk(derive, scope, owner, s.log, s.clients[c]);
  }

  /** No operation id takes effect twice. */
  lemma OperationsApplyOnce(derive: Derivation, scope: Scope, owner: Owner, actions: seq<Action>, i: nat, j: nat)
    requires OwnedActions(owner, actions) && i < j < |Exec(derive, scope, INITIAL, actions).log|
    ensures var log := Exec(derive, scope, INITIAL, actions).log; OperationOf(log[i]) != OperationOf(log[j])
  {
    hide Serve, SpaceAfter, Exec, Refines, OwnedLedger, ClientOk, LedgerAnswer;
    InitialOk(derive, scope, owner);
    RunKeeps(derive, scope, owner, INITIAL, actions);
    var log := Exec(derive, scope, INITIAL, actions).log;
    assert Fresh(derive, scope, SpaceAfter(derive, scope, log[..i]), log[i]);
    assert Fresh(derive, scope, SpaceAfter(derive, scope, log[..j]), log[j]);
    SuccessIsRecorded(derive, scope, SpaceAfter(derive, scope, log[..i]), log[i]);
    SpaceAfterNext(derive, scope, log[..i], log[i]);
    assert log[..i] + [log[i]] == log[..i + 1];
    assert log[..j] == log[..i + 1] + log[i + 1..j];
    LaterKeepsLedger(derive, scope, log[..i + 1], log[i + 1..j], OperationOf(log[i]));
  }

  lemma {:induction false} LaterKeepsLedger(derive: Derivation, scope: Scope, log: seq<Call>, more: seq<Call>, operation: OperationId)
    requires operation in SpaceAfter(derive, scope, log).operations
    ensures operation in SpaceAfter(derive, scope, log + more).operations
    decreases |more|
  {
    hide Serve, SpaceAfter;
    if more == [] {
      assert log + more == log;
    } else {
      var front, last := more[..|more| - 1], more[|more| - 1];
      LaterKeepsLedger(derive, scope, log, front, operation);
      assert log + more == (log + front) + [last];
      SpaceAfterNext(derive, scope, log + front, last);
      ServeKeepsLedger(derive, scope, SpaceAfter(derive, scope, log + front), last, operation);
    }
  }

  /** The row is as it was, or the claim has moved on. */
  ghost predicate Onward(before: Tables, after: Tables, id: ClaimId)
    requires id in before.rows
  {
    && id in after.rows
    && (after.rows[id] == before.rows[id] || before.rows[id].transitionCount < after.rows[id].transitionCount)
  }

  lemma StepOnward(derive: Derivation, scope: Scope, owner: Owner, s: State, a: Action, id: ClaimId)
    requires Inv(derive, scope, owner, s) && id in s.tables.rows
    ensures Onward(s.tables, Step(derive, scope, s, a).tables, id)
  {
    hide SpaceAfter, FreshLog, OwnedLedger, DoneOk, MovedBy, Decide, AppendDoor, LedgerAnswer, Recorded;
    if a.Advance? && a.client in s.clients {
      var client := s.clients[a.client];
      assert ClientOk(derive, scope, owner, s.log, client);
      if client.phase.MoveWrite? {
        DecidedOutcome(scope.tenant, Key(scope), client.phase.read, client.call.request, client.call.policy, client.call.now);
      }
    }
  }

  lemma {:induction false} RunOnward(derive: Derivation, scope: Scope, owner: Owner, s: State, actions: seq<Action>, id: ClaimId)
    requires Inv(derive, scope, owner, s) && OwnedActions(owner, actions) && id in s.tables.rows
    ensures Onward(s.tables, Exec(derive, scope, s, actions).tables, id)
    decreases |actions|
  {
    hide Inv, Step;
    if actions != [] {
      var front, last := actions[..|actions| - 1], actions[|actions| - 1];
      RunOnward(derive, scope, owner, s, front, id);
      RunKeeps(derive, scope, owner, s, front);
      StepOnward(derive, scope, owner, Exec(derive, scope, s, front), last, id);
    }
  }

  /** Freedom from ABA: at any two moments of a run at which a claim has the same transition count, its row is
      the same, columns and record; and the count never falls. */
  lemma EqualCountSameRecord(derive: Derivation, scope: Scope, owner: Owner, first: seq<Action>, rest: seq<Action>, id: ClaimId)
    requires OwnedActions(owner, first) && OwnedActions(owner, rest)
    requires id in Exec(derive, scope, INITIAL, first).tables.rows
    ensures var before := Exec(derive, scope, INITIAL, first).tables;
            var after := Exec(derive, scope, Exec(derive, scope, INITIAL, first), rest).tables;
            && id in after.rows
            && before.rows[id].transitionCount <= after.rows[id].transitionCount
            && (before.rows[id].transitionCount == after.rows[id].transitionCount ==> before.rows[id] == after.rows[id])
  {
    hide Exec, Inv;
    InitialOk(derive, scope, owner);
    RunKeeps(derive, scope, owner, INITIAL, first);
    RunOnward(derive, scope, owner, Exec(derive, scope, INITIAL, first), rest, id);
  }
}

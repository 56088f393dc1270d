# Verified models of the knowledge-graph store and the A2A task log

Two protocols over durable state, modelled in Dafny and proved to keep a simple sequential meaning under
concurrency, retries, bounds and paging.

**The communal knowledge graph.** Agents append claims to knowledge spaces and move their trust along a lattice;
promotions may need a grant. The in-memory store is the reference: `ClaimModel`, `ClaimSpace` and `ClaimAudit` give
one space as a value and prove what every run keeps; `ClaimStore` is the store as an object over its three maps,
with scope keys (`ScopeKey`) keeping spaces apart. `ClaimCas` is the relational store's write protocol: clients whose
ledger reads, head reads, statement snapshots and guarded writes interleave over three tables, proved to be the
reference store. `Traversal`, `TraversalLevels` and `TraversalSql` are the bounded breadth-first traversal, what it
means, and its relational form; `ClaimPaging` and `GoalMerge` are keyset paging and the bounded join over spaces.

**The A2A task log.** A task's public state is the fold of its event log (`TaskProjection`). `TaskTail`
says what folding a retained tail gives, and `TaskLog` is the shared log maintained by optimistic writers over a row and
an event table, with retention; `MemoryLog` is the in-memory log with snapshot-aware compaction. `TaskStream` is the
stream a client reads, `TaskWake` how streams are woken, `StreamSources` the link between logs and streams.
`PushSchedule` schedules notifications from a volatile watermark, `PushConfigs` keeps the per-task config record, and `CursorText` gives cursors and deduplication keys as text.

Premises the code depends on, stated where they are used:

- Claim ids, nodes, principals and digests are values; a digest stands for what it digests, and the derivation of
  claim ids is a parameter. `AlreadyExistsIsCollision` and `AlreadyExistsUnreachable` say what injectivity buys.
- An operation id belongs to one kind and one claim (`ClaimCas.Owned`). `SharedOperationGoesUnrecorded` shows why.
- In the shared log a writer claims a sequence only if it is still held or is the very next one (`TaskLog.Claims`);
  `InsertSafeExactly` shows this is exactly what keeps the log sequential, `OvertakenWriterReclaims` what happens
  otherwise, and `TimelyIsSafe` that staying within the retention bound is enough. How far clients fall behind is not
  restricted: `FoldHealsExactly` says exactly when a fold is the whole history, and `CompactionCanStrandTheRow` with
  `StuckForEver` that compaction can outrun the row for good.
- In-memory replay is complete while the log has room for its newest event (`MemoryLog.Room`): the code can drop the
  newest event when the retained snapshots fill the log, and `AppendReplaysExactly` gives the exact condition.
- A resumed stream's cursor was handed out by the log it reads; replays are whole or refused. A projection read is the
  fold of some prefix of the log, not of all of it: `SharedReadsServeStreams` and `MemoryReadsServeStreams` give this
  for both logs, `ResyncFallsExactly` and `WakeupLostExactly` what a read that falls short costs a stream.
- The push watermark's promise holds while replay resumes from it, or the newly emitted events include every sequence
  from the one after it to the last of them (`PushSchedule.Resumes`); `InterleavedEmissionSkips` shows a run that breaks it.

Where code and description differ the model follows the code: the shared log refuses a caught-up non-zero cursor while
the in-memory log answers it with an empty list; a re-snapshot may move the public status anywhere
(`SnapshotOverrides`), and a fold that restarts at one may show an older status time (`BackdatedSnapshotLosesTime`); the
clock of a save is read before its record is loaded, so a save can evict itself (`SaveCanEvictItself`); a stream resumed
from a caught-up cursor on a finished task stays open and heartbeats the terminal status (`TerminalBeatExactly`); and the frame of a snapshot event carries no replay cursor.

## Model

| member | source | states |
|---|---|---|
| `Traversal.NewRequest` | crates/rakka-agent-knowledge-graph/src/store.rs:506-567 | every traversal dimension a caller asks for is clamped: depth to 1..4, nodes to 1..256, edges to 1..1024; a dimension in range, and everything else, is kept as asked |
| `Traversal.ExpandNode` | crates/rakka-agent-knowledge-graph/src/store.rs:996-1012 | expanding one frontier node appends exactly its unspent followable edges in claim order, until the edge budget cuts |
| `Traversal.ExpandLevel` | crates/rakka-agent-knowledge-graph/src/store.rs:994-1013 | expanding a whole frontier appends the edges of the level and collects the nodes they reach, or stops where the budget cuts |
| `Traversal.AdmitLevel` | crates/rakka-agent-knowledge-graph/src/store.rs:1014-1022 | the next frontier is the newly reached nodes in ascending order, cut at the node budget |
| `Traversal.AnyWork` | crates/rakka-agent-knowledge-graph/src/store.rs:1025-1036 | whether a followable, unspent edge remains at the given nodes |
| `Traversal.Round` | crates/rakka-agent-knowledge-graph/src/store.rs:987-1023 | one round is one level of the breadth-first function |
| `Traversal.Traverse` | crates/rakka-agent-knowledge-graph/src/store.rs:923-1039 | the mutable-set traversal of the reference store computes the level-by-level function `Traversed` |
| `TraversalLevels.TraversalExact` | crates/rakka-agent-knowledge-graph/src/store.rs:923-1039 | for every claim graph, direction and budget: `truncated` is set if and only if a reachable node or a followable edge is missing; everything reported is reachable; an untouched start answers the empty report |
| `TraversalLevels.TraversalWithinBudgets` | crates/rakka-agent-knowledge-graph/src/store.rs:923-1039 | neither budget is exceeded and no node or edge is reported twice |
| `TraversalLevels.TraversalInLevelOrder` | crates/rakka-agent-knowledge-graph/src/store.rs:987-1036 | nodes are a prefix of breadth-first level order and edges of its edge order; a report short of the requested depth has a budget exactly full |
| `TraversalLevels.TraversalDepthCut` | crates/rakka-agent-knowledge-graph/src/store.rs:987-1036 | when only depth cuts, the nodes are exactly those at distance at most `depth`, the edges exactly those followable from distance less than `depth`, each once even in direction `Both` |
| `TraversalLevels.LevelOrderByDistance` | crates/rakka-agent-knowledge-graph/src/store.rs:987-1023 | level order lists nodes in non-decreasing shortest distance, ascending by id within a level |
| `TraversalLevels.WithinIsPathLength` | crates/rakka-agent-knowledge-graph/src/store.rs:941-964 | the distance used above is path length: a node is within `k` if and only if a path of at most `k` followable hops reaches it |
| `TraversalSql.EdgeCandidates` | crates/rakka-agent-knowledge-graph-postgres/src/lib.rs:362-421 | on coherent columns the per-node query with its `LIMIT` returns exactly the first unspent followable edges of the node, and the drift refusal is not reached |
| `TraversalSql.ExpandNodeSql` | crates/rakka-agent-knowledge-graph-postgres/src/lib.rs:639-656 | expanding a node from a `remaining + 1` candidate query is the reference expansion, cut included |
| `TraversalSql.ExpandLevelSql` | crates/rakka-agent-knowledge-graph-postgres/src/lib.rs:634-657 | expanding a level by per-node queries is the reference expansion of the level |
| `TraversalSql.AnyWorkSql` | crates/rakka-agent-knowledge-graph-postgres/src/lib.rs:669-678 | the one-row probes find work exactly when the reference does |
| `TraversalSql.RoundSql` | crates/rakka-agent-knowledge-graph-postgres/src/lib.rs:630-667 | one SQL round is one level of the breadth-first function |
| `TraversalSql.TraverseSql` | crates/rakka-agent-knowledge-graph-postgres/src/lib.rs:601-681 | on every ordered table with coherent columns the relational traversal returns the identical report to the reference traversal |
| `ClaimAudit.TransitionLattice` | crates/rakka-agent-knowledge-graph/src/claim.rs:462-473 | the trust lattice: anything but a retracted claim may move to any other status except back to `Proposed` |
| `ClaimSpace.DecidedOutcome` | crates/rakka-agent-knowledge-graph/src/claim.rs:640-658 | a decided transition is one legal step of the claim read: next ordinal, from its current trust, everything else unchanged, below the history bound |
| `ClaimSpace.SpaceRunKeeps` | crates/rakka-agent-knowledge-graph/src/store.rs:801-1136 | every run of appends and transitions keeps claims, histories and ledger consistent with one another |
| `ClaimSpace.ClaimHistoryHolds` | crates/rakka-agent-knowledge-graph/src/store.rs:1041-1136 | in every reachable space a claim has ordinals 1..n, n equal to its count and at most 32, a legal chain from `Proposed` to its trust, `Proposed` exactly when n is 0, and otherwise what its append stored |
| `ClaimSpace.LedgerNeverChanges` | crates/rakka-agent-knowledge-graph/src/store.rs:807-857 | a spent operation id keeps its first result for ever |
| `ClaimSpace.SpentOperationReplays` | crates/rakka-agent-knowledge-graph/src/store.rs:1054-1069 | after any later calls, a well-formed call under a spent operation id changes nothing and is answered from the ledger: the original for its own kind, a conflict for the other |
| `ClaimSpace.RepeatReturnsFirst` | crates/rakka-agent-knowledge-graph/src/store.rs:807-857 | a successful call repeated after any further calls returns its first result and changes nothing |
| `ClaimSpace.AlreadyExistsIsCollision` | crates/rakka-agent-knowledge-graph/src/claim.rs:249-255 | `AlreadyExists` is answered if and only if a fresh operation derives the id of a different spent append |
| `ClaimSpace.AlreadyExistsUnreachable` | crates/rakka-agent-knowledge-graph/src/claim.rs:249-255 | with an injective derivation no run ever answers `AlreadyExists` |
| `ClaimAudit.StoredClaimsValidate` | crates/rakka-agent-knowledge-graph/src/claim.rs:693-790 | every record a run stores meets every rule its restoration checks, however often it moved |
| `ClaimAudit.RetractionIsFinal` | crates/rakka-agent-knowledge-graph/src/store.rs:1041-1136 | once retracted, a claim and its history never change again |
| `ClaimAudit.PromotionsAreReceipted` | crates/rakka-agent-knowledge-graph/src/promotion.rs:142-215 | under the gate-all policy no claim of any reachable space was promoted without a receipt binding its statement, previous status and ordinal |
| `ClaimStore.InMemoryKnowledgeGraphStore.constructor` | crates/rakka-agent-knowledge-graph/src/store.rs:770-772 | a new store holds the empty space under every key |
| `ClaimStore.InMemoryKnowledgeGraphStore.Append` | crates/rakka-agent-knowledge-graph/src/store.rs:801-859 | an append answers and updates the addressed space as `ClaimSpace.Append` and leaves every other key alone |
| `ClaimStore.InMemoryKnowledgeGraphStore.Transit` | crates/rakka-agent-knowledge-graph/src/store.rs:1041-1136 | a transition answers and updates the addressed space as `ClaimSpace.Transit` and leaves every other key alone |
| `ClaimStore.InMemoryKnowledgeGraphStore.Record` | crates/rakka-agent-knowledge-graph/src/store.rs:1114-1133 | the three writes of an applied transition are one step of the space |
| `ClaimStore.InMemoryKnowledgeGraphStore.Get` | crates/rakka-agent-knowledge-graph/src/store.rs:861-876 | a read returns the stored claim of the addressed space, or nothing |
| `ClaimStore.InMemoryKnowledgeGraphStore.Query` | crates/rakka-agent-knowledge-graph/src/store.rs:878-921 | a query returns the cursor's page of the addressed space in id order |
| `ClaimStore.InMemoryKnowledgeGraphStore.Traverse` | crates/rakka-agent-knowledge-graph/src/store.rs:923-939 | a traversal reads only the addressed space, in id order |
| `ClaimStore.ScopeSeesItsOwnCalls` | crates/rakka-agent-knowledge-graph/src/store.rs:745-753 | what a run leaves under one scope's key is what the calls addressed to that scope alone would leave |
| `ClaimStore.ScopesDoNotInterfere` | crates/rakka-agent-knowledge-graph/src/store.rs:801-1183 | two stores agreeing on a scope still agree on it, and answer its next call identically, after arbitrary runs that differ only elsewhere |
| `ClaimStore.GrantUsedOnce` | crates/rakka-agent-knowledge-graph/src/promotion.rs:142-215 | no run contains two fresh gated promotions under the same grant |
| `ClaimStore.GateBindsCount` | crates/rakka-agent-knowledge-graph/src/store.rs:1082-1112 | a fresh gated promotion moves the claim, from the count and in the scope, that its grant is bound to |
| `ScopeKey.KeyRoundTrip` | crates/rakka-agent-knowledge-graph/src/scope.rs:63-84 | a valid scope survives its own key |
| `ScopeKey.ParseAcceptsKeys` | crates/rakka-agent-knowledge-graph/src/scope.rs:72-84 | parsing accepts exactly the keys of valid scopes |
| `ScopeKey.KeyInjective` | crates/rakka-agent-knowledge-graph/src/scope.rs:63-69 | distinct valid scopes have distinct keys |
| `ClaimCas.TablesAreReference` | crates/rakka-agent-knowledge-graph-postgres/src/lib.rs:179-228 | over every interleaving of clients, crashes included, the three tables are exactly the reference space after the logged calls; every column agrees with its record, so drift is never reported |
| `ClaimCas.AnswersLinearize` | crates/rakka-agent-knowledge-graph-postgres/src/lib.rs:683-808 | every answer is the reference's own answer at a moment between the call's start and end, except that a transition may be refused when its operation was unspent at the start and applied by another client by then, and may give up with a backend error when its claim was moved at least eight times in between |
| `ClaimCas.LostRacesAreMoves` | crates/rakka-agent-knowledge-graph-postgres/src/lib.rs:683-808 | a transition that has gone round its loop n times has seen its claim moved at least n times since the call began |
| `ClaimCas.OperationsApplyOnce` | crates/rakka-agent-knowledge-graph-postgres/src/lib.rs:433-517 | no operation id takes effect twice |
| `ClaimCas.EqualCountSameRecord` | crates/rakka-agent-knowledge-graph-postgres/src/lib.rs:205-228 | freedom from ABA: a claim's count never falls, and equal counts at two moments of a run mean the identical row |
| `ClaimCas.MoveWriteOk` | crates/rakka-agent-knowledge-graph-postgres/src/lib.rs:773-798 | a guarded write that passes its fence is the reference's transition on the current record; one that loses means the count rose |
| `ClaimCas.AppendInsertOk` | crates/rakka-agent-knowledge-graph-postgres/src/lib.rs:468-478 | an insert that finds its id free is the reference's append, its operation necessarily unspent |
| `ClaimCasLimits.RefusedThoughApplied` | crates/rakka-agent-knowledge-graph-postgres/src/lib.rs:693-740 | ledger and head are read apart: a retry can be refused although its own operation has been applied and recorded |
| `ClaimCasLimits.RaceIsReachable` | crates/rakka-agent-knowledge-graph-postgres/src/lib.rs:683-808 | the state of a race over one claim is reached from the empty tables |
| `ClaimCasLimits.SharedRaceIsReachable` | crates/rakka-agent-knowledge-graph-postgres/src/lib.rs:683-808 | the state of a race over two claims under one operation id is reached from the empty tables |
| `ClaimCasLimits.SharedOperationGoesUnrecorded` | crates/rakka-agent-knowledge-graph-postgres/src/lib.rs:205-228 | without the ownership premise two claims' transitions under one operation id both succeed while the ledger keeps only one of them |
| `ClaimCasLimits.ReachableTablesReadAlike` | crates/rakka-agent-knowledge-graph-postgres/src/lib.rs:245-284 | every reachable claim table scans in order, coherently, as the reference store iterates |
| `ClaimCasLimits.TraverseTables` | crates/rakka-agent-knowledge-graph-postgres/src/lib.rs:601-681 | the relational traversal of every reachable table at rest is the reference's report |
| `ClaimPaging.WithLimit` | crates/rakka-agent-knowledge-graph/src/store.rs:376-379 | a page limit is clamped to 1..64, kept when in range, and keeps its position |
| `ClaimPaging.Query` | crates/rakka-agent-knowledge-graph/src/store.rs:878-921 | the in-memory scan returns the next `limit` admitted claims and a cursor exactly when more remain |
| `ClaimPaging.ScanBatch` | crates/rakka-agent-knowledge-graph-postgres/src/lib.rs:245-257 | a keyset query returns the next rows past a position |
| `ClaimPaging.QuerySql` | crates/rakka-agent-knowledge-graph-postgres/src/lib.rs:541-599 | the 256-row batch scan returns the identical page |
| `ClaimPaging.WalkYieldsAdmitted` | crates/rakka-agent-knowledge-graph/src/store.rs:878-921 | on an unchanging store a walk at any limits yields a gap-free prefix of the admitted claims in id order, all of them once finished, and finishes within one page more than there are claims |
| `ClaimPaging.WalkAscends` | crates/rakka-agent-knowledge-graph/src/store.rs:878-921 | whatever happens between pages, a walk returns strictly ascending ids, each admitted when read |
| `ClaimPaging.WalkMissesNothing` | crates/rakka-agent-knowledge-graph/src/store.rs:878-921 | with the store changing between pages, a finished walk returns every claim present and admitted throughout exactly once |
| `GoalMerge.ReadSpace` | crates/rakka-agent-knowledge-graph/src/goal_claim_source.rs:84-124 | the paging loop over one space collects exactly its first `limit` admitted claims, none for a limit of zero |
| `GoalMerge.ClaimsForGoal` | crates/rakka-agent-knowledge-graph/src/goal_claim_source.rs:64-134 | bounded per-space reads, sorted together and truncated, are the first `limit` references of the whole join |
| `GoalMerge.PrefixesSuffice` | crates/rakka-agent-knowledge-graph/src/goal_claim_source.rs:71-80 | for sorted lists, sorting and truncating the `limit`-prefixes is sorting and truncating the whole |
| `GoalMerge.JoinedIsComplete` | crates/rakka-agent-knowledge-graph/src/goal_claim_source.rs:125-133 | the join is in claim order and holds exactly the admitted claims of the added spaces |
| `GoalMerge.SpaceOrderIsFree` | crates/rakka-agent-knowledge-graph/src/goal_claim_source.rs:45-53 | the order in which spaces are added never decides the join |
| `TaskProjection.FoldEvents` | crates/rakka-a2a/src/postgres.rs:623-645 | the loop over a mutable current projection computes the fold of the tail onto the row |
| `TaskProjection.FoldHeals` | crates/rakka-a2a/src/postgres.rs:175-211 | folding the missing tail onto any stored prefix of the history gives the fold of the whole history |
| `TaskProjection.ApplyKeepsTimeForward` | crates/rakka-a2a/src/task.rs:255-277 | applying an event never moves the status time backward, re-snapshots included |
| `TaskProjection.StatusNeverRegresses` | crates/rakka-a2a/src/task.rs:278-285 | between snapshots the folded status never returns to submitted and never leaves a terminal state |
| `TaskProjection.SnapshotOverrides` | crates/rakka-a2a/src/task.rs:271-277 | a re-snapshot may carry any status, whatever was shown before |
| `TaskLog.LogIsSequential` | crates/rakka-a2a/src/postgres.rs:317-367 | over every interleaving in which writers claim only held or next sequences, however far clients fall behind and wherever they stop: every event sits once at its own sequence with the status its prefix folds to; the row is the fold of the history up to its revision, its status time exact unless a fold restarted at a backdated snapshot; the table holds the newest events and the newest snapshot |
| `TaskLog.AppendsExactlyOnce` | crates/rakka-a2a/src/postgres.rs:269-367 | an acknowledged append is in the history exactly once, at its sequence, with the tenant, task, context, time and payload it asked for; one that was refused or gave up is nowhere in it; one answered with a failed statement's error is in it exactly once, or nowhere, according to whether it had inserted its event by then |
| `TaskLog.ErrorLeavesEventExactly` | crates/rakka-a2a/src/postgres.rs:326-358 | when a statement of an append fails and its error is the answer, the append is in the history if and only if what failed came after the insert |
| `TaskLog.ReadsAreFolds` | crates/rakka-a2a/src/postgres.rs:175-211 | every finished read is the fold of a prefix of the history, and of all of it as of its tail read if and only if nothing it needed was missing then; every successful replay is the history past its cursor |
| `TaskLog.ReplayCompleteOrRefused` | crates/rakka-a2a/src/postgres.rs:537-618 | while the newest event is retained, a replay is exactly the history past its cursor, or refused |
| `TaskLog.HistoryGrows` | crates/rakka-a2a/src/postgres.rs:269-295 | no step rewrites the history; it grows by at most one event |
| `TaskLog.TimelyRunIsSafe` | crates/rakka-a2a/src/postgres.rs:297-367 | a run of clients that stay within the retention bound is safe, with exact status times, throughout |
| `TaskLog.TimelyIsSafe` | crates/rakka-a2a/src/postgres.rs:297-315 | a client never more than the retention bound behind claims safely and folds a whole window |
| `TaskTail.FoldHealsExactly` | crates/rakka-a2a/src/postgres.rs:175-211 | folding the retained tail onto an exact row gives the whole history if and only if nothing past the row is missing, or a retained snapshot past it has everything after it retained and no earlier event is newer than all of those |
| `TaskTail.PlainTailHealsExactly` | crates/rakka-a2a/src/postgres.rs:623-645 | with no snapshot past the row, it does if and only if the window past the row is whole |
| `TaskTail.ViewCoversExactly` | crates/rakka-a2a/src/postgres.rs:623-645 | a fold covers a sequence if and only if nothing up to there, past its row or past the newest snapshot, is missing |
| `TaskTail.ViewTrails` | crates/rakka-a2a/src/postgres.rs:623-645 | whatever has been compacted, a fold is the fold of some prefix of the history, up to a status time that may lag |
| `TaskLogLimits.InsertSafeExactly` | crates/rakka-a2a/src/postgres.rs:269-295 | an insert keeps the log sequential if and only if its sequence is occupied or is the very next one |
| `TaskLogLimits.CompactedIsOld` | crates/rakka-a2a/src/postgres.rs:297-315 | only a sequence at least the retention bound behind the newest can be missing |
| `TaskLogLimits.RetentionBound` | crates/rakka-a2a/src/postgres.rs:297-315 | compaction leaves at most the bound and the newest snapshot |
| `TaskLogLimits.QuietAppend` | crates/rakka-a2a/src/postgres.rs:317-367 | an uncontended append from a caught-up row is acknowledged at the next sequence and leaves the row caught up |
| `TaskLogLimits.AppendRefusedExactly` | crates/rakka-a2a/src/postgres.rs:317-345 | with anything retained, a writer that folds its tail is turned away with an ordering error if and only if something past its row, or past the newest snapshot, has been compacted |
| `TaskLogLimits.CompactionCanStrandTheRow` | crates/rakka-a2a/src/postgres.rs:297-367 | a run in which no claim is unsafe and compaction outruns the row: two writers stop between insert and converge, a third compacts, and what the row needs next is gone |
| `TaskLogLimits.StuckForEver` | crates/rakka-a2a/src/postgres.rs:317-367 | from such a state, as long as the stopped writers stay stopped, no append is ever accepted again: row, table and history never change |
| `TaskLogLimits.BackdatedSnapshotLosesTime` | crates/rakka-a2a/src/postgres.rs:623-645 | a run in which a read restarts at a snapshot older than the status it replaces and shows the newest revision with an older status time than the row |
| `TaskLogLimits.ReplayWholeExactly` | crates/rakka-a2a/src/postgres.rs:537-618 | replay is whole or refused at every cursor if and only if the newest event is retained |
| `TaskLogLimits.OvertakenWriterReclaims` | crates/rakka-a2a/src/postgres.rs:269-315 | overtaken by more than the retention bound, a writer claims a sequence another writer already holds |
| `TaskLogLimits.NoRetentionReplayGap` | crates/rakka-a2a/src/postgres.rs:537-618 | with a retention bound of zero, a replay succeeds and silently stops before the newest event |
| `MemoryLog.CompactEventLog` | crates/rakka-a2a/src/projection.rs:547-568 | the removal loop terminates and computes the compaction function |
| `MemoryLog.CompactedFits` | crates/rakka-a2a/src/projection.rs:547-568 | compaction leaves exactly the smaller of the length and the limit, drawn from the log, still in order |
| `MemoryLog.CompactedKeepsSnapshot` | crates/rakka-a2a/src/projection.rs:547-568 | with a limit of at least one the newest snapshot survives compaction |
| `MemoryLog.NewestKeptExactly` | crates/rakka-a2a/src/projection.rs:547-568 | appending and compacting keeps the newest event if and only if the limit is at least one and the event is a snapshot or fewer than `limit` snapshots are retained |
| `MemoryLog.ReplayHasNoGap` | crates/rakka-a2a/src/projection.rs:499-518 | a successful replay is a run of the history starting right after its cursor |
| `MemoryLog.ReplayCompleteExactly` | crates/rakka-a2a/src/projection.rs:452-519 | every replay is complete or refused, at every cursor, if and only if the newest event is retained |
| `MemoryLog.AppendReplaysExactly` | crates/rakka-a2a/src/projection.rs:276-296 | after an append, every replay is complete or refused if and only if there was room for the new event |
| `MemoryLog.InMemoryTaskProjectionStore.constructor` | crates/rakka-a2a/src/projection.rs:232-239 | a new store knows no task |
| `MemoryLog.InMemoryTaskProjectionStore.Push` | crates/rakka-a2a/src/projection.rs:294-296 | storing an event extends its history by exactly it and compacts the log |
| `MemoryLog.InMemoryTaskProjectionStore.AppendEventPayload` | crates/rakka-a2a/src/projection.rs:367-382 | only a snapshot bootstraps an unknown task; otherwise the history grows by the event at the next sequence, the projection is its fold, and other tasks are unchanged |
| `MemoryLog.InMemoryTaskProjectionStore.ReplayEvents` | crates/rakka-a2a/src/projection.rs:452-519 | cursors past the revision are invalid, gaps are refused, otherwise the retained events past the cursor |
| `MemoryLog.Collect` | crates/rakka-a2a/src/projection.rs:499-518 | the gap check and the collection answer the retained tail exactly when it is contiguous from the cursor |
| `TaskStream.FrameFollowsEvent` | crates/rakka-a2a/src/handler.rs:1711-1762 | a client showing a projection shows the next one after applying the event's frame |
| `TaskStream.ClientSeesFold` | crates/rakka-a2a/src/handler.rs:1333-1440 | applying the frames of any prefix of a stream brings the client exactly to the fold of the log at the position that prefix reaches, also where a resynchronization has taken it back |
| `TaskStream.CursorsArePositions` | crates/rakka-a2a/src/handler.rs:1711-1783 | every cursor a frame carries is the position the client has reached; neighbouring event frames carry neighbouring sequences; a position falls only where the stream resynchronizes |
| `TaskStream.FallsOnlyAtResync` | crates/rakka-a2a/src/handler.rs:1581-1616 | between two moments of a stream without a resynchronization its position does not fall |
| `TaskStream.StreamContinuity` | crates/rakka-a2a/src/handler.rs:1457-1493 | between calls: emitted plus queued frames give the fold at the stream's cursor, emitted frames alone the fold at theirs, and only the last emitted frame can end the stream |
| `TaskStream.BeatsChangeNothing` | crates/rakka-a2a/src/handler.rs:1764-1783 | a heartbeat taken as a status update leaves the client as it is, on any stream that has carried a status or has come from its start past the position its opening status was read at |
| `TaskStream.TerminalBeatExactly` | crates/rakka-a2a/src/handler.rs:1764-1783 | a heartbeat shows a finished task if and only if the stream opened on one and carried no status since |
| `TaskStream.A2AStreamState.constructor` | crates/rakka-a2a/src/handler.rs:1333-1440 | from any projection that is the fold of a prefix: opening queues the replay past the cursor, a snapshot, or an owner poll, at a consistent position; no heartbeat then comes before a status or the position the opening status was read at, unless the stream is resumed through an owner or its projection is behind its cursor |
| `TaskStream.A2AStreamState.ReplayFromCursor` | crates/rakka-a2a/src/handler.rs:1379-1408 | the opening replay puts the cursor at the last replayed event, or at the projection's revision when nothing is replayed or the replay is refused |
| `TaskStream.A2AStreamState.Resynchronize` | crates/rakka-a2a/src/handler.rs:1601-1613 | from the fold of any prefix, ahead of the cursor or behind it, a resynchronization queues the projection's task and moves the cursor to its revision |
| `TaskStream.A2AStreamState.Queue` | crates/rakka-a2a/src/handler.rs:1590-1600 | queueing replayed events moves the cursor to the end of the log, skipping none |
| `TaskStream.A2AStreamState.Apply` | crates/rakka-a2a/src/handler.rs:1693-1709 | emitting a frame ends the stream exactly on a terminal status or an error |
| `TaskStream.A2AStreamState.Drain` | crates/rakka-a2a/src/handler.rs:1581-1616 | a drain replays past the cursor or resynchronizes when refused; the cursor falls if and only if the replay is refused and the projection read instead stands below it |
| `TaskStream.A2AStreamState.PollOwner` | crates/rakka-a2a/src/handler.rs:1622-1676 | an owner poll queues the owner's events or its snapshot; the cursor falls if and only if the owner's snapshot stands below it; the third failure in a row is an error |
| `TaskStream.A2AStreamState.Interpose` | crates/rakka-a2a/src/handler.rs:1764-1783 | heartbeats and errors go out at the stream's own position, with nothing queued before them |
| `TaskStream.A2AStreamState.TakeTurn` | crates/rakka-a2a/src/handler.rs:1507-1572 | one turn of the loop emits at most one frame and keeps the stream consistent |
| `TaskStream.A2AStreamState.Await` | crates/rakka-a2a/src/handler.rs:1517-1571 | a signal drains, a lost watcher is dropped, a timeout polls or beats |
| `TaskStream.A2AStreamState.TakeFirst` | crates/rakka-a2a/src/handler.rs:1501-1505 | the oldest queued frame is emitted first |
| `TaskStream.A2AStreamState.NextStreamItem` | crates/rakka-a2a/src/handler.rs:1495-1573 | a finished stream yields nothing; otherwise each call emits exactly the next frame of the trace, or waits; the cursor is lower afterwards only if the stream resynchronized |
| `StreamSources.SharedLogServesStreams` | crates/rakka-a2a/src/postgres.rs:537-618 | every safe run of the shared log answers replays the way streams rely on, and never answers a known task with nothing |
| `StreamSources.SharedReadsServeStreams` | crates/rakka-a2a/src/postgres.rs:175-215 | every finished projection read of the shared log is, from then on, the fold of a prefix that streams rely on, of the whole log of its time if and only if nothing it needed was missing |
| `StreamSources.ResyncFallsExactly` | crates/rakka-a2a/src/handler.rs:1601-1613 | a stream that resynchronizes from a read of the shared log goes back if and only if something up to its cursor that the read needed, past its row and past the newest snapshot, has been compacted away |
| `StreamSources.CursorCanFall` | crates/rakka-a2a/src/handler.rs:1581-1616 | a run from the empty log in which a stream at two is answered events three and four, is then refused at four, and resynchronizes at two |
| `StreamSources.MemoryLogServesStreams` | crates/rakka-a2a/src/projection.rs:452-519 | the in-memory log answers replays so while its newest event is retained, and answers nothing only where the projection read before stood |
| `StreamSources.MemoryReadsServeStreams` | crates/rakka-a2a/src/projection.rs:351-365 | a projection of the in-memory log is the fold of the whole log |
| `TaskWake.NoLostWakeup` | crates/rakka-a2a/src/handler.rs:1342-1355 | over every interleaving of appends, lag, drains and sweeps, with projection reads that fall short: a waiting stream that the log is ahead of is woken by its next look at its signal, if the log has grown since the stream last read it, if that read reached the end, or if its baseline is at or below its cursor |
| `TaskWake.WakeupLostExactly` | crates/rakka-a2a/src/postgres_watcher.rs:105-128 | the wake-up is lost if and only if no hint is unread, or the baseline is the log's length; then the stream's last read fell short of a log that has not grown since |
| `TaskWake.AppendIsHeard` | crates/rakka-a2a/src/postgres_watcher.rs:105-128 | a lost wake-up lasts until the next append, which is always heard |
| `TaskWake.WholeReadsLoseNothing` | crates/rakka-a2a/src/handler.rs:1342-1355 | over every run whose projection reads reach the end of the log no wake-up is lost |
| `TaskWake.ShortReadLosesWakeup` | crates/rakka-a2a/src/handler.rs:1342-1408 | after any run, a stream that opens with a projection short of the log's end and has its replay refused loses the wake-up on either watcher |
| `TaskWake.ReceiversNeverAbandoned` | crates/rakka-a2a/src/projection.rs:523-544 | a stream on the broadcast channel is never told that its watcher is gone |
| `TaskWake.PollersAbandonedExactly` | crates/rakka-a2a/src/postgres_watcher.rs:105-128 | a polling stream is told so if and only if three reads of one wait failed in a row |
| `TaskWake.StepKeeps` | crates/rakka-a2a/src/postgres_watcher.rs:77-128 | every step, failed reads, timeouts and short reads included, keeps receivers connected and baselines at or below what the stream has read |
| `TaskWake.SubscribingLateLosesWakeups` | crates/rakka-a2a/src/handler.rs:1342-1355 | reading the projection before opening the watcher would lose a wake-up |
| `CursorText.CursorRoundTrip` | crates/rakka-a2a/src/task.rs:714-733 | every cursor handed out parses back to its task and position, colons in task ids included |
| `CursorText.CursorAccepts` | crates/rakka-a2a/src/task.rs:720-733 | parsing accepts exactly a task id, a colon and a number that fits 64 bits |
| `CursorText.PushKeyInjective` | crates/rakka-a2a/src/push.rs:784-788 | for one task the deduplication key determines its event and its config |
| `CursorText.PushKeyCollidesAcrossTasks` | crates/rakka-a2a/src/push.rs:784-788 | across tasks the key is not injective |
| `PushSchedule.WatermarkIsCovered` | crates/rakka-a2a/src/push.rs:668-719 | over every interleaving of schedulers, partial batches, retries, config changes and watermark resets, every event at or below the watermark was offered to all the configs some scheduler found active, reading them after the event existed |
| `PushSchedule.OutboxHoldsPairsOnce` | crates/rakka-a2a/src/push.rs:721-743 | over every run each event-and-config pair is in the outbox at most once, under its own key |
| `PushSchedule.FallbackIsSafeExactly` | crates/rakka-a2a/src/push.rs:680-693 | when replay is refused and the scheduler runs to its end, the recorded watermark keeps that promise if and only if no active config is still owed an event that the newly emitted ones skip; where those are all owed, if and only if every sequence from the one after the watermark to the last emitted is among the emitted |
| `PushSchedule.SchedulerFinishesAlone` | crates/rakka-a2a/src/push.rs:668-719 | left alone, every scheduler returns |
| `PushSchedule.RefusedReplaySkips` | crates/rakka-a2a/src/push.rs:680-693 | a run in which only the second event was newly emitted, and the watermark comes to cover the first, never offered |
| `PushSchedule.SkipsOwed` | crates/rakka-a2a/src/push.rs:680-693 | every run in which a replay is refused while an event the emitted ones skip is owed ends, once that scheduler has finished, with a watermark above an event never offered |
| `PushSchedule.InterleavedEmissionSkips` | crates/rakka-a2a/src/runsync.rs:27-75 | a run in which events five and seven are emitted past watermark four, another caller's six between them, and the watermark comes to cover six, never offered |
| `PushConfigs.FindOldest` | crates/rakka-a2a/src/push.rs:849-862 | the search returns the first candidate of least age |
| `PushConfigs.CapConfigs` | crates/rakka-a2a/src/push.rs:847-869 | the eviction loop computes the capping function |
| `PushConfigs.ApplyKeeps` | crates/rakka-a2a/src/push.rs:409-480 | every save and delete keeps ids unique, at most 64 entries and 1..32 audit records each |
| `PushConfigs.SaveEvictsTombstonesFirst` | crates/rakka-a2a/src/push.rs:844-869 | a live entry is evicted only when no tombstone exists, and only from a full record |
| `PushConfigs.SaveSurvivesExactly` | crates/rakka-a2a/src/push.rs:409-480 | a just-saved config survives its own save if and only if the record has room, holds a tombstone, or holds an entry created no later |
| `PushConfigs.SaveSurvivesOnSteadyClock` | crates/rakka-a2a/src/push.rs:409-480 | over every run under a clock that never runs backward, a save of a new config survives its own commit unless at least 64 commits came between its reading the clock and its loading the record |
| `PushConfigLimits.SaveCanEvictItself` | crates/rakka-a2a/src/push.rs:409-480 | a run under a steady clock in which that happens: the save is acknowledged and its config is not in the record |
| `PushConfigs.RecordIsSequential` | crates/rakka-a2a/src/push.rs:409-480 | over every interleaving of compare-and-set saves and deletes, every committed revision is one operation applied to the revision before, and the record stays bounded with unique ids |
| `PushConfigs.WritersAreHonest` | crates/rakka-a2a/src/push.rs:559-603 | a finished writer's operation is one committed revision, or had nothing to change at the revision it read |

## Left out

- Request handling, hosting, routing, authentication, agent cards, mapping, observability and the protocol codec: they drive actors and stores through interfaces and hold no invariant of their own.
- JSON encodings, digest algorithms, schema versions and migrations: records are values, so decoding failures and foreign schema versions are not modelled.
- Byte lengths: text bounds count characters, and identifiers compare as integers where only their order matters.
- Machine integers: counters and sequences are unbounded, so saturation at 64 bits and the 32-bit column conversions are not modelled.
- The fields of a claim filter: paging is proved for every admission predicate instead.
- The paged listing of a claim's transitions: it is the claim paging over ordinals again.
- `upsert` of a projection and appends with caller-chosen sequences: both step around the log's own numbering. With `upsert` left out, so is the replay of a projection that has no local event log, which answers an expired window with earliest sequence 0.
- More than one task per shared log, and tenants as a filter on listing: rows and events of different keys do not meet.
- The offset paging of task and config listings, stream admission counters and the schema window: true but easy.
- Timers, intervals and liveness: waits end in whatever way the environment chooses; only safety is claimed.
- Terminal protocol states: the terminal predicate comes from the protocol library, which is not part of this model; completed, failed, canceled and rejected are taken as terminal.
- A stream opened on a task the local store does not know: it starts from the caller's copy of the projection.
- The effect outbox beyond its deduplication key, credential redaction and callback validation.
- TaskWake.NoLostWakeup: covers streams woken by their own watcher; a stream that polls a remote owner is woken by its timer, which is not modelled.
- TaskStream.ClientSeesFold: heartbeats are taken as carrying no event, because on a stream resumed through an owner, or opened with a projection behind its cursor, they may show the status of another position until a frame carries one; `BeatsChangeNothing` covers every other heartbeat.
- PushSchedule.WatermarkIsCovered: one owner epoch; a log whose sequences restart is a new run.
- PushConfigs.RecordIsSequential: a delete reads its clock before it loads the record, where the code reads it after (push.rs:568-580); a delete sets no creation time, and without a steady clock its stamp is any value.
- ClaimCas.AnswersLinearize: a transition's refusal is explained rather than linearized, because the ledger and the head are read apart.

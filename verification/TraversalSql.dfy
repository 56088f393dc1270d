/** The relational backend's traversal: bounded per-node candidate queries over denormalized
    columns, re-verified against the authoritative record, instead of full scans. */
module TraversalSql {
  import opened Common
  import opened ClaimModel
  import opened Traversal

  /** One row of the claim table: denormalized columns beside the authoritative record. */
  datatype Row = Row(claimId: ClaimId, operationId: OperationId, subject: Node, relation: Predicate,
                     objectNode: Option<Node>, trust: Trust, transitionCount: nat, record: Claim)

  /** The columns say what the record says. */
  predicate Coherent(row: Row) {
    && row.claimId == row.record.claimId && row.operationId == row.record.operationId
    && row.subject == row.record.subject && row.relation == row.record.relation
    && row.objectNode == ObjectNode(row.record.obj) && row.trust == row.record.trust
    && row.transitionCount == row.record.transitionCount
  }

  function RowOf(c: Claim): (row: Row)
    ensures Coherent(row)
  {
    Row(c.claimId, c.operationId, c.subject, c.relation, ObjectNode(c.obj), c.trust, c.transitionCount, c)
  }

  ghost predicate CoherentTable(rows: seq<Row>) {
    forall i :: 0 <= i < |rows| ==> Coherent(rows[i])
  }

  ghost predicate OrderedTable(rows: seq<Row>) {
    forall i, j :: 0 <= i < j < |rows| ==> rows[i].claimId < rows[j].claimId
  }

  ghost function Records(rows: seq<Row>): (claims: seq<Claim>)
    ensures |claims| == |rows|
  {
    seq(|rows|, i requires 0 <= i < |rows| => rows[i].record)
  }

  /** The `WHERE` clause of the candidate query. */
  predicate Matches(t: Request, row: Row, node: Node, spent: set<ClaimId>) {
    && row.objectNode.Some?
    && row.trust in t.trust
    && (t.relations.None? || row.relation in t.relations.value)
    && row.claimId !in spent
    && (match t.direction
        case Outbound => row.subject == node
        case Inbound => row.objectNode.value == node
        case Both => row.subject == node || row.objectNode.value == node)
  }

  lemma MatchesMeansTouches(t: Request, row: Row, node: Node, spent: set<ClaimId>)
    requires Coherent(row)
    ensures Matches(t, row, node, spent) <==> Touches(t, row.record, node) && row.record.claimId !in spent
  {
  }

  /** The candidate query with its `LIMIT`, then the re-verification of every returned row. */
  method EdgeCandidates(t: Request, rows: seq<Row>, node: Node, spent: set<ClaimId>, limit: nat)
    returns (r: Result<seq<(Claim, Node)>, ClaimError>)
    requires OrderedTable(rows)
    ensures CoherentTable(rows) ==> r.Ok?
    ensures CoherentTable(rows) ==> Candidates(r.value, t, node, Take(NewEdges(t, Records(rows), node, spent), limit))
  {
    var selected: seq<Row> := [];
    var i := 0;
    while i < |rows| && |selected| < limit
      invariant i <= |rows| && |selected| <= limit
      invariant CoherentTable(rows) ==> Selected(selected, NewEdges(t, Records(rows)[..i], node, spent))
    {
      if Matches(t, rows[i], node, spent) {
        selected := selected + [rows[i]];
      }
      SelectStep(t, rows, i, node, spent);
      i := i + 1;
    }
    SelectDone(t, rows, i, node, spent, limit, selected);
    var candidates: seq<(Claim, Node)> := [];
    for k := 0 to |selected|
      invariant |candidates| == k
      invariant forall j :: 0 <= j < k ==>
                  candidates[j].0 == selected[j].record && Touches(t, candidates[j].0, node)
                  && Neighbor(candidates[j].0, node, t.direction) == Some(candidates[j].1)
    {
      var claim := selected[k].record;
      var reached := Neighbor(claim, node, t.direction);
      if !Follows(t, claim) || reached.None? {
        assert CoherentTable(rows) ==> Touches(t, claim, node) by {
          if CoherentTable(rows) {
            NewEdgesMember(t, Records(rows), node, spent, claim);
          }
        }
        return Err(Backend);
      }
      candidates := candidates + [(claim, reached.value)];
    }
    return Ok(candidates);
  }

  ghost predicate Selected(selected: seq<Row>, edges: seq<Claim>) {
    |selected| == |edges| && forall j :: 0 <= j < |edges| ==> selected[j].record == edges[j]
  }

  ghost predicate Candidates(candidates: seq<(Claim, Node)>, t: Request, node: Node, edges: seq<Claim>) {
    && |candidates| == |edges|
    && forall j :: 0 <= j < |edges| ==>
         candidates[j].0 == edges[j] && Touches(t, edges[j], node)
         && Neighbor(edges[j], node, t.direction) == Some(candidates[j].1)
  }

  lemma SelectStep(t: Request, rows: seq<Row>, i: nat, node: Node, spent: set<ClaimId>)
    requires i < |rows|
    ensures CoherentTable(rows) ==>
              NewEdges(t, Records(rows)[..i + 1], node, spent)
              == NewEdges(t, Records(rows)[..i], node, spent)
                 + (if Matches(t, rows[i], node, spent) then [rows[i].record] else [])
  {
    assert Records(rows)[..i + 1][..i] == Records(rows)[..i];
    if CoherentTable(rows) {
      MatchesMeansTouches(t, rows[i], node, spent);
    }
  }

  lemma SelectDone(t: Request, rows: seq<Row>, i: nat, node: Node, spent: set<ClaimId>, limit: nat, selected: seq<Row>)
    requires i <= |rows| && |selected| <= limit && (i == |rows| || |selected| == limit)
    requires CoherentTable(rows) ==> Selected(selected, NewEdges(t, Records(rows)[..i], node, spent))
    ensures CoherentTable(rows) ==> Selected(selected, Take(NewEdges(t, Records(rows), node, spent), limit))
    ensures CoherentTable(rows) ==> forall j :: 0 <= j < |selected| ==> selected[j].record in NewEdges(t, Records(rows), node, spent)
  {
    if CoherentTable(rows) {
      NewEdgesPrefix(t, Records(rows), node, spent, i);
      if i == |rows| {
        assert Records(rows)[..i] == Records(rows);
      }
    }
  }

  // ----- One node, one level, the whole traversal -----

  /** What spending the first `i` candidates of a node has done. */
  ghost predicate Spent(t: Request, node: Node, edges: seq<Claim>, added: seq<Claim>,
                        visited: set<Node>, level: set<Node>,
                        followed: seq<Claim>, spent': set<ClaimId>, level': set<Node>)
  {
    && followed == edges + added
    && spent' == Ids(followed)
    && level' == level + (NeighborsOf(t, added, node) - visited)
  }

  lemma SpendOne(t: Request, node: Node, edges: seq<Claim>, added: seq<Claim>, c: Claim,
                 visited: set<Node>, level: set<Node>,
                 followed: seq<Claim>, spent': set<ClaimId>, level': set<Node>)
    requires Spent(t, node, edges, added, visited, level, followed, spent', level')
    requires Touches(t, c, node)
    ensures var reached := Neighbor(c, node, t.direction).value;
            Spent(t, node, edges, added + [c], visited, level, followed + [c], spent' + {c.claimId},
                  if reached in visited then level' else level' + {reached})
  {
    IdsAppend(followed, c);
    NeighborsAppend(t, added, c, node);
    assert edges + (added + [c]) == followed + [c];
  }

  /** One frontier node: at most one candidate more than the remaining budget is fetched. */
  method ExpandNodeSql(t: Request, rows: seq<Row>, node: Node, edges: seq<Claim>, spent: set<ClaimId>,
                       visited: set<Node>, level: set<Node>)
    returns (failed: bool, followed: seq<Claim>, spent': set<ClaimId>, level': set<Node>, cut: bool)
    requires OrderedTable(rows) && |edges| <= t.edgeBudget && spent == Ids(edges)
    ensures |followed| <= t.edgeBudget && spent' == Ids(followed)
    ensures CoherentTable(rows) ==>
              !failed && NodeExpanded(t, Records(rows), node, edges, visited, level, followed, spent', level', cut)
  {
    failed, followed, spent', level', cut := false, edges, spent, level, false;
    var remaining := t.edgeBudget - |edges|;
    var answer := EdgeCandidates(t, rows, node, spent, remaining + 1);
    if answer.Err? {
      failed := true;
      return;
    }
    var candidates := answer.value;
    ghost var added := NewEdges(t, Records(rows), node, spent);
    ghost var first := Take(added, remaining + 1);
    assert edges + [] == edges;
    for i := 0 to |candidates|
      invariant |followed| <= t.edgeBudget && |followed| == |edges| + i && spent' == Ids(followed) && !failed && !cut
      invariant CoherentTable(rows) ==>
                  |first| == |candidates| && Spent(t, node, edges, first[..i], visited, level, followed, spent', level')
    {
      var (claim, reached) := candidates[i];
      if |followed| == t.edgeBudget {
        cut := true;
        return;
      }
      if CoherentTable(rows) {
        SpendOne(t, node, edges, first[..i], claim, visited, level, followed, spent', level');
        assert first[..i + 1] == first[..i] + [claim];
      }
      IdsAppend(followed, claim);
      spent', followed := spent' + {claim.claimId}, followed + [claim];
      if reached !in visited {
        level' := level' + {reached};
      }
    }
    if CoherentTable(rows) {
      assert first[..|first|] == first;
    }
  }

  method ExpandLevelSql(t: Request, rows: seq<Row>, frontier: seq<Node>, edges: seq<Claim>, spent: set<ClaimId>,
                        visited: set<Node>)
    returns (failed: bool, followed: seq<Claim>, spent': set<ClaimId>, level: set<Node>, cut: bool)
    requires OrderedTable(rows) && |edges| <= t.edgeBudget && spent == Ids(edges)
    ensures |followed| <= t.edgeBudget && spent' == Ids(followed)
    ensures CoherentTable(rows) ==>
              !failed && LevelExpanded(t, Records(rows), frontier, edges, visited, followed, spent', level, cut)
  {
    hide NodeExpanded, LevelExpanded, CoherentTable, Records;
    failed, followed, spent', level, cut := false, edges, spent, {}, false;
    for i := 0 to |frontier|
      invariant |followed| <= t.edgeBudget && spent' == Ids(followed) && !cut && !failed
      invariant CoherentTable(rows) ==> followed == EdgesFrom(t, Records(rows), frontier[..i], edges)
      invariant CoherentTable(rows) ==> level == ReachedFrom(t, Records(rows), frontier[..i], edges) - visited
    {
      ghost var before, levelBefore := followed, level;
      failed, followed, spent', level, cut := ExpandNodeSql(t, rows, frontier[i], followed, spent', visited, level);
      if failed {
        return;
      }
      if CoherentTable(rows) {
        LevelStep(t, Records(rows), frontier, i, edges, visited, before, levelBefore, followed, spent', level, cut);
      }
      if cut {
        return;
      }
    }
    assert frontier[..|frontier|] == frontier;
    LevelAllDone(t, Records(rows), frontier, edges, visited, followed, spent', level);
  }

  lemma LevelAllDone(t: Request, claims: seq<Claim>, frontier: seq<Node>, edges: seq<Claim>, visited: set<Node>,
                     followed: seq<Claim>, spent': set<ClaimId>, level: set<Node>)
    ensures |followed| <= t.edgeBudget && spent' == Ids(followed)
            && followed == EdgesFrom(t, claims, frontier, edges)
            && level == ReachedFrom(t, claims, frontier, edges) - visited
            ==> LevelExpanded(t, claims, frontier, edges, visited, followed, spent', level, false)
  {
  }

  /** Whether some frontier node still has a candidate, asked one row at a time. */
  method AnyWorkSql(t: Request, rows: seq<Row>, frontier: seq<Node>, spent: set<ClaimId>, ghost edges: seq<Claim>)
    returns (failed: bool, more: bool)
    requires OrderedTable(rows) && spent == Ids(edges)
    ensures CoherentTable(rows) ==> !failed && more == WorkLeft(t, Records(rows), frontier, edges)
  {
    failed, more := false, false;
    for i := 0 to |frontier|
      invariant !failed && !more
      invariant CoherentTable(rows) ==> !WorkLeft(t, Records(rows), frontier[..i], edges)
    {
      var answer := EdgeCandidates(t, rows, frontier[i], spent, 1);
      if answer.Err? {
        failed := true;
        return;
      }
      if CoherentTable(rows) {
        NodeWork(t, Records(rows), frontier, i, edges);
      }
      if answer.value != [] {
        more := true;
        return;
      }
    }
    assert frontier[..|frontier|] == frontier;
  }

  lemma NodeWork(t: Request, claims: seq<Claim>, frontier: seq<Node>, i: nat, edges: seq<Claim>)
    requires i < |frontier| && !WorkLeft(t, claims, frontier[..i], edges)
    ensures NewEdges(t, claims, frontier[i], Ids(edges)) != [] ==> WorkLeft(t, claims, frontier, edges)
    ensures NewEdges(t, claims, frontier[i], Ids(edges)) == [] ==> !WorkLeft(t, claims, frontier[..i + 1], edges)
  {
    var added := NewEdges(t, claims, frontier[i], Ids(edges));
    assert frontier[..i + 1] == frontier[..i] + [frontier[i]];
    if added != [] {
      NewEdgesMember(t, claims, frontier[i], Ids(edges), added[0]);
      assert frontier[i] in frontier;
    } else {
      forall n, c | n in frontier[..i + 1] && c in claims && Touches(t, c, n) && c.claimId !in Ids(edges) ensures false {
        if n == frontier[i] {
          NewEdgesMember(t, claims, n, Ids(edges), c);
        }
      }
    }
  }

  method RoundSql(t: Request, rows: seq<Row>, ghost depth: nat, nodes: seq<Node>, edges: seq<Claim>,
                  spent: set<ClaimId>, frontier: seq<Node>)
    returns (decided: Option<Result<Report, ClaimError>>,
             nodes': seq<Node>, edges': seq<Claim>, spent': set<ClaimId>, frontier': seq<Node>)
    requires OrderedTable(rows) && 0 < depth && frontier != []
    requires |nodes| <= t.nodeBudget && |edges| <= t.edgeBudget && spent == Ids(edges)
    ensures |nodes'| <= t.nodeBudget && |edges'| <= t.edgeBudget && spent' == Ids(edges')
    ensures CoherentTable(rows) && decided.Some? ==>
              decided.value == Ok(Explore(t, Records(rows), depth, nodes, edges, frontier))
    ensures CoherentTable(rows) && decided.None? ==>
              Explore(t, Records(rows), depth, nodes, edges, frontier)
              == Explore(t, Records(rows), depth - 1, nodes', edges', frontier')
  {
    hide CoherentTable, Records;
    nodes', frontier' := nodes, frontier;
    var visited := set n | n in nodes;
    var failed, level, cut;
    failed, edges', spent', level, cut := ExpandLevelSql(t, rows, frontier, edges, spent, visited);
    if failed {
      return Some(Err(Backend)), nodes', edges', spent', frontier';
    }
    if cut {
      return Some(Ok(Report(nodes, edges', true))), nodes', edges', spent', frontier';
    }
    assert CoherentTable(rows) ==> level == ReachedFrom(t, Records(rows), frontier, edges) - ToSet(nodes);
    nodes', frontier', cut := AdmitLevel(t, nodes, level);
    decided := if cut then Some(Ok(Report(nodes', edges', true))) else None;
  }

  /** `PostgresKnowledgeGraphStore::traverse`: on a table whose columns are coherent, the column-drift
      refusal is never reached and the report is the reference report. */
  method TraverseSql(t: Request, rows: seq<Row>) returns (r: Result<Report, ClaimError>)
    requires OrderedTable(rows) && 1 <= t.nodeBudget
    ensures CoherentTable(rows) ==> r == Ok(Traversed(t, Records(rows)))
  {
    hide Explore, StartTouched, WorkLeft, CoherentTable, Records;
    WorkLeftAtStart(t, Records(rows));
    var failed, touched := AnyWorkSql(t, rows, [t.start], {}, []);
    if failed {
      return Err(Backend);
    }
    if !touched {
      return Ok(Report([], [], false));
    }
    var nodes, edges, spent, frontier := [t.start], [], {}, [t.start];
    var d := 0;
    while d < t.depth && frontier != []
      invariant d <= t.depth
      invariant |nodes| <= t.nodeBudget && |edges| <= t.edgeBudget && spent == Ids(edges)
      invariant CoherentTable(rows) ==>
                  Traversed(t, Records(rows)) == Explore(t, Records(rows), t.depth - d, nodes, edges, frontier)
    {
      var decided;
      decided, nodes, edges, spent, frontier := RoundSql(t, rows, t.depth - d, nodes, edges, spent, frontier);
      if decided.Some? {
        return decided.value;
      }
      d := d + 1;
    }
    ExploreEnd(t, Records(rows), t.depth - d, nodes, edges, frontier);
    var more;
    failed, more := AnyWorkSql(t, rows, frontier, spent, edges);
    if failed {
      return Err(Backend);
    }
    return Ok(Report(nodes, edges, more));
  }
}

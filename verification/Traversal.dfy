/** Bounded breadth-first traversal over edge claims: the request, the reference traversal of
    the in-memory store, and the level-by-level function both backends are proved against. */
module Traversal {
  import opened Common
  import opened ClaimModel

  const CLAIM_TRAVERSAL_MAX_DEPTH: nat := 4
  const CLAIM_TRAVERSAL_MAX_NODES: nat := 256
  const CLAIM_TRAVERSAL_MAX_EDGES: nat := 1024

  datatype Direction = Outbound | Inbound | Both

  datatype Request = Request(
    start: Node, direction: Direction, relations: Option<set<Predicate>>, trust: set<Trust>,
    depth: nat, nodeBudget: nat, edgeBudget: nat)

  datatype Report = Report(nodes: seq<Node>, edges: seq<Claim>, truncated: bool)

  /** `ClaimTraversal::from_node` and its builders: every dimension is clamped. */
  function NewRequest(start: Node, direction: Direction, relations: Option<set<Predicate>>, trust: set<Trust>,
                      depth: nat, nodeBudget: nat, edgeBudget: nat): (t: Request)
    ensures 1 <= t.depth <= CLAIM_TRAVERSAL_MAX_DEPTH
    ensures 1 <= t.nodeBudget <= CLAIM_TRAVERSAL_MAX_NODES
    ensures 1 <= t.edgeBudget <= CLAIM_TRAVERSAL_MAX_EDGES
    ensures 1 <= depth <= CLAIM_TRAVERSAL_MAX_DEPTH ==> t.depth == depth
    ensures 1 <= nodeBudget <= CLAIM_TRAVERSAL_MAX_NODES ==> t.nodeBudget == nodeBudget
    ensures 1 <= edgeBudget <= CLAIM_TRAVERSAL_MAX_EDGES ==> t.edgeBudget == edgeBudget
    ensures t.start == start && t.direction == direction && t.relations == relations && t.trust == trust
  {
    Request(start, direction, relations, trust, Clamp(depth, CLAIM_TRAVERSAL_MAX_DEPTH),
            Clamp(nodeBudget, CLAIM_TRAVERSAL_MAX_NODES), Clamp(edgeBudget, CLAIM_TRAVERSAL_MAX_EDGES))
  }

  /** Claims in the iteration order of the ordered claim map. */
  ghost predicate InIdOrder(claims: seq<Claim>) {
    forall i, j :: 0 <= i < j < |claims| ==> claims[i].claimId < claims[j].claimId
  }

  /** Edge admission: node objects only, trust and relation filtered. */
  predicate Follows(t: Request, c: Claim) {
    && c.obj.NodeObject?
    && c.trust in t.trust
    && (t.relations.None? || c.relation in t.relations.value)
  }

  /** The neighbour an edge yields for a frontier node, per direction. */
  function Neighbor(c: Claim, node: Node, direction: Direction): Option<Node> {
    if !c.obj.NodeObject? then None
    else if direction == Outbound && c.subject == node then Some(c.obj.node)
    else if direction == Inbound && c.obj.node == node then Some(c.subject)
    else if direction == Both && c.subject == node then Some(c.obj.node)
    else if direction == Both && c.obj.node == node then Some(c.subject)
    else None
  }

  predicate Touches(t: Request, c: Claim, node: Node) {
    Follows(t, c) && Neighbor(c, node, t.direction).Some?
  }

  ghost function Ids(edges: seq<Claim>): set<ClaimId> {
    set c | c in edges :: c.claimId
  }

  // ----- The level-by-level function -----

  /** The followable edges at one node that are not yet spent, ascending by claim id. */
  ghost function NewEdges(t: Request, claims: seq<Claim>, node: Node, spent: set<ClaimId>): seq<Claim> {
    if claims == [] then []
    else
      var c := claims[|claims| - 1];
      NewEdges(t, claims[..|claims| - 1], node, spent)
      + (if Touches(t, c, node) && c.claimId !in spent then [c] else [])
  }

  /** The edges followed from a sequence of nodes, one after the other, appended to `edges`. */
  ghost function EdgesFrom(t: Request, claims: seq<Claim>, nodes: seq<Node>, edges: seq<Claim>): seq<Claim> {
    if nodes == [] then edges
    else
      var before := EdgesFrom(t, claims, nodes[..|nodes| - 1], edges);
      before + NewEdges(t, claims, nodes[|nodes| - 1], Ids(before))
  }

  ghost function NeighborsOf(t: Request, edges: seq<Claim>, node: Node): set<Node> {
    set c | c in edges && Touches(t, c, node) :: Neighbor(c, node, t.direction).value
  }

  /** The nodes those newly followed edges reach. */
  ghost function ReachedFrom(t: Request, claims: seq<Claim>, nodes: seq<Node>, edges: seq<Claim>): set<Node> {
    if nodes == [] then {}
    else
      var front, node := nodes[..|nodes| - 1], nodes[|nodes| - 1];
      ReachedFrom(t, claims, front, edges)
      + NeighborsOf(t, NewEdges(t, claims, node, Ids(EdgesFrom(t, claims, front, edges))), node)
  }

  /** Whether a followable edge at one of the nodes is still unspent. */
  ghost predicate WorkLeft(t: Request, claims: seq<Claim>, frontier: seq<Node>, edges: seq<Claim>) {
    exists n, c :: n in frontier && c in claims && Touches(t, c, n) && c.claimId !in Ids(edges)
  }

  /** Expands level by level until the depth, a budget or the graph runs out. */
  ghost function Explore(t: Request, claims: seq<Claim>, depth: nat,
                         nodes: seq<Node>, edges: seq<Claim>, frontier: seq<Node>): Report
    requires |nodes| <= t.nodeBudget && |edges| <= t.edgeBudget
    decreases depth
  {
    if depth == 0 || frontier == [] then Report(nodes, edges, WorkLeft(t, claims, frontier, edges))
    else
      var followed := EdgesFrom(t, claims, frontier, edges);
      var next := Sorted(ReachedFrom(t, claims, frontier, edges) - ToSet(nodes));
      if |followed| > t.edgeBudget then Report(nodes, followed[..t.edgeBudget], true)
      else if |nodes| + |next| > t.nodeBudget then Report(nodes + next[..t.nodeBudget - |nodes|], followed, true)
      else Explore(t, claims, depth - 1, nodes + next, followed, next)
  }

  ghost predicate StartTouched(t: Request, claims: seq<Claim>) {
    exists c :: c in claims && Touches(t, c, t.start)
  }

  ghost function Traversed(t: Request, claims: seq<Claim>): Report
    requires 1 <= t.nodeBudget
  {
    if !StartTouched(t, claims) then Report([], [], false)
    else Explore(t, claims, t.depth, [t.start], [], [t.start])
  }

  // ----- Facts about one node's expansion -----

  lemma {:induction false} NewEdgesMember(t: Request, claims: seq<Claim>, node: Node, spent: set<ClaimId>, c: Claim)
    ensures c in NewEdges(t, claims, node, spent) <==> c in claims && Touches(t, c, node) && c.claimId !in spent
  {
    if claims != [] {
      NewEdgesMember(t, claims[..|claims| - 1], node, spent, c);
      assert claims == claims[..|claims| - 1] + [claims[|claims| - 1]];
    }
  }

  lemma {:induction false} NewEdgesAscending(t: Request, claims: seq<Claim>, node: Node, spent: set<ClaimId>)
    requires InIdOrder(claims)
    ensures InIdOrder(NewEdges(t, claims, node, spent))
  {
    if claims != [] {
      var front := claims[..|claims| - 1];
      NewEdgesAscending(t, front, node, spent);
      var r := NewEdges(t, front, node, spent);
      forall i | 0 <= i < |r| ensures r[i].claimId < claims[|claims| - 1].claimId {
        NewEdgesMember(t, front, node, spent, r[i]);
      }
    }
  }

  // ----- The reference traversal -----

  /** The state of one node's scan after the first `i` claims. */
  ghost predicate Scanned(t: Request, claims: seq<Claim>, i: nat, node: Node, edges: seq<Claim>,
                          visited: set<Node>, level: set<Node>,
                          followed: seq<Claim>, spent': set<ClaimId>, level': set<Node>)
    requires i <= |claims|
  {
    var added := NewEdges(t, claims[..i], node, Ids(edges));
    && followed == edges + added
    && spent' == Ids(followed)
    && level' == level + (NeighborsOf(t, added, node) - visited)
  }

  lemma IdsAppend(edges: seq<Claim>, c: Claim)
    ensures Ids(edges + [c]) == Ids(edges) + {c.claimId}
  {
    assert forall x :: x in edges + [c] <==> x in edges || x == c;
  }

  lemma NeighborsAppend(t: Request, edges: seq<Claim>, c: Claim, node: Node)
    requires Touches(t, c, node)
    ensures NeighborsOf(t, edges + [c], node) == NeighborsOf(t, edges, node) + {Neighbor(c, node, t.direction).value}
  {
    assert forall x :: x in edges + [c] <==> x in edges || x == c;
  }

  lemma ScanSkip(t: Request, claims: seq<Claim>, i: nat, node: Node, edges: seq<Claim>,
                 visited: set<Node>, level: set<Node>,
                 followed: seq<Claim>, spent': set<ClaimId>, level': set<Node>)
    requires InIdOrder(claims) && i < |claims|
    requires Scanned(t, claims, i, node, edges, visited, level, followed, spent', level')
    requires !Touches(t, claims[i], node) || claims[i].claimId in spent'
    ensures Scanned(t, claims, i + 1, node, edges, visited, level, followed, spent', level')
  {
    assert claims[..i + 1][..i] == claims[..i];
    FreshIds(t, claims, i, node, edges);
    var added := NewEdges(t, claims[..i], node, Ids(edges));
    assert added + [] == added;
  }

  lemma ScanTake(t: Request, claims: seq<Claim>, i: nat, node: Node, edges: seq<Claim>,
                 visited: set<Node>, level: set<Node>,
                 followed: seq<Claim>, spent': set<ClaimId>, level': set<Node>)
    requires InIdOrder(claims) && i < |claims|
    requires Scanned(t, claims, i, node, edges, visited, level, followed, spent', level')
    requires Touches(t, claims[i], node) && claims[i].claimId !in spent'
    ensures var c := claims[i];
            var reached := Neighbor(c, node, t.direction).value;
            Scanned(t, claims, i + 1, node, edges, visited, level, followed + [c], spent' + {c.claimId},
                    if reached in visited then level' else level' + {reached})
  {
    var c := claims[i];
    assert claims[..i + 1][..i] == claims[..i];
    FreshIds(t, claims, i, node, edges);
    var added := NewEdges(t, claims[..i], node, Ids(edges));
    assert NewEdges(t, claims[..i + 1], node, Ids(edges)) == added + [c];
    assert edges + (added + [c]) == followed + [c];
    IdsAppend(followed, c);
    NeighborsAppend(t, added, c, node);
  }

  /** One frontier node: scans the claims in id order, spending each edge once. */
  method ExpandNode(t: Request, claims: seq<Claim>, node: Node, edges: seq<Claim>, spent: set<ClaimId>,
                    visited: set<Node>, level: set<Node>)
    returns (followed: seq<Claim>, spent': set<ClaimId>, level': set<Node>, cut: bool)
    requires InIdOrder(claims) && |edges| <= t.edgeBudget && spent == Ids(edges)
    ensures NodeExpanded(t, claims, node, edges, visited, level, followed, spent', level', cut)
  {
    followed, spent', level', cut := edges, spent, level, false;
    assert edges + [] == edges;
    for i := 0 to |claims|
      invariant Scanned(t, claims, i, node, edges, visited, level, followed, spent', level')
      invariant |followed| <= t.edgeBudget
      invariant !cut
    {
      var c := claims[i];
      var reached := Neighbor(c, node, t.direction);
      if !Follows(t, c) || c.claimId in spent' || reached.None? {
        ScanSkip(t, claims, i, node, edges, visited, level, followed, spent', level');
        continue;
      }
      if |followed| == t.edgeBudget {
        FreshIds(t, claims, i, node, edges);
        CutExact(t, claims, node, Ids(edges), i);
        cut := true;
        return;
      }
      ScanTake(t, claims, i, node, edges, visited, level, followed, spent', level');
      spent', followed := spent' + {c.claimId}, followed + [c];
      if reached.value !in visited {
        level' := level' + {reached.value};
      }
    }
    assert claims[..|claims|] == claims;
  }

  ghost predicate NodeExpanded(t: Request, claims: seq<Claim>, node: Node, edges: seq<Claim>,
                               visited: set<Node>, level: set<Node>,
                               followed: seq<Claim>, spent': set<ClaimId>, level': set<Node>, cut: bool)
  {
    var added := NewEdges(t, claims, node, Ids(edges));
    && cut == (|edges| + |added| > t.edgeBudget)
    && (cut ==> |edges| <= t.edgeBudget && followed == (edges + added)[..t.edgeBudget])
    && (!cut ==> followed == edges + added && spent' == Ids(followed)
                 && level' == level + (NeighborsOf(t, added, node) - visited))
  }

  lemma FreshIds(t: Request, claims: seq<Claim>, i: nat, node: Node, edges: seq<Claim>)
    requires InIdOrder(claims) && i < |claims|
    ensures var before := NewEdges(t, claims[..i], node, Ids(edges));
            claims[i].claimId in Ids(edges + before) <==> claims[i].claimId in Ids(edges)
  {
    var before := NewEdges(t, claims[..i], node, Ids(edges));
    forall c | c in before ensures c.claimId != claims[i].claimId {
      NewEdgesMember(t, claims[..i], node, Ids(edges), c);
    }
  }

  lemma {:induction false} NewEdgesPrefix(t: Request, claims: seq<Claim>, node: Node, spent: set<ClaimId>, i: nat)
    requires i <= |claims|
    ensures NewEdges(t, claims[..i], node, spent) <= NewEdges(t, claims, node, spent)
    decreases |claims| - i
  {
    if i < |claims| {
      assert claims[..i + 1][..i] == claims[..i];
      NewEdgesPrefix(t, claims, node, spent, i + 1);
    } else {
      assert claims[..i] == claims;
    }
  }

  /** The edge that finds the budget full proves the cut, and what was kept is the full prefix. */
  lemma CutExact(t: Request, claims: seq<Claim>, node: Node, spent: set<ClaimId>, i: nat)
    requires i < |claims| && Touches(t, claims[i], node) && claims[i].claimId !in spent
    ensures var before := NewEdges(t, claims[..i], node, spent);
            var whole := NewEdges(t, claims, node, spent);
            |before| < |whole| && before == whole[..|before|]
  {
    assert claims[..i + 1][..i] == claims[..i];
    NewEdgesPrefix(t, claims, node, spent, i + 1);
    NewEdgesPrefix(t, claims, node, spent, i);
  }

  lemma {:induction false} EdgesFromPrefix(t: Request, claims: seq<Claim>, nodes: seq<Node>, edges: seq<Claim>, i: nat)
    requires i <= |nodes|
    ensures EdgesFrom(t, claims, nodes[..i], edges) <= EdgesFrom(t, claims, nodes, edges)
    decreases |nodes| - i
  {
    if i < |nodes| {
      assert nodes[..i + 1][..i] == nodes[..i];
      EdgesFromPrefix(t, claims, nodes, edges, i + 1);
    } else {
      assert nodes[..i] == nodes;
    }
  }

  ghost predicate LevelExpanded(t: Request, claims: seq<Claim>, frontier: seq<Node>, edges: seq<Claim>, visited: set<Node>,
                                followed: seq<Claim>, spent': set<ClaimId>, level: set<Node>, cut: bool)
  {
    var all := EdgesFrom(t, claims, frontier, edges);
    && cut == (|all| > t.edgeBudget)
    && (cut ==> followed == all[..t.edgeBudget])
    && (!cut ==> followed == all && spent' == Ids(followed)
                 && level == ReachedFrom(t, claims, frontier, edges) - visited)
  }

  /** One more node of a level either completes a longer prefix of the level or cuts the whole level. */
  lemma LevelStep(t: Request, claims: seq<Claim>, frontier: seq<Node>, i: nat, edges: seq<Claim>, visited: set<Node>,
                  before: seq<Claim>, levelBefore: set<Node>,
                  followed: seq<Claim>, spent': set<ClaimId>, level: set<Node>, cut: bool)
    requires i < |frontier|
    requires before == EdgesFrom(t, claims, frontier[..i], edges)
    requires levelBefore == ReachedFrom(t, claims, frontier[..i], edges) - visited
    requires NodeExpanded(t, claims, frontier[i], before, visited, levelBefore, followed, spent', level, cut)
    ensures cut ==> LevelExpanded(t, claims, frontier, edges, visited, followed, spent', level, cut)
    ensures !cut ==> |followed| <= t.edgeBudget && spent' == Ids(followed)
                     && followed == EdgesFrom(t, claims, frontier[..i + 1], edges)
                     && level == ReachedFrom(t, claims, frontier[..i + 1], edges) - visited
  {
    assert frontier[..i + 1][..i] == frontier[..i];
    if cut {
      EdgesFromPrefix(t, claims, frontier, edges, i + 1);
    }
  }

  /** One level: every frontier node in order. */
  method ExpandLevel(t: Request, claims: seq<Claim>, frontier: seq<Node>, edges: seq<Claim>, spent: set<ClaimId>,
                     visited: set<Node>)
    returns (followed: seq<Claim>, spent': set<ClaimId>, level: set<Node>, cut: bool)
    requires InIdOrder(claims) && |edges| <= t.edgeBudget && spent == Ids(edges)
    ensures LevelExpanded(t, claims, frontier, edges, visited, followed, spent', level, cut)
  {
    followed, spent', level, cut := edges, spent, {}, false;
    for i := 0 to |frontier|
      invariant |followed| <= t.edgeBudget && spent' == Ids(followed) && !cut
      invariant followed == EdgesFrom(t, claims, frontier[..i], edges)
      invariant level == ReachedFrom(t, claims, frontier[..i], edges) - visited
    {
      ghost var before, levelBefore := followed, level;
      followed, spent', level, cut := ExpandNode(t, claims, frontier[i], followed, spent', visited, level);
      LevelStep(t, claims, frontier, i, edges, visited, before, levelBefore, followed, spent', level, cut);
      if cut {
        return;
      }
    }
    assert frontier[..|frontier|] == frontier;
  }

  /** Admits the next level in ascending node order, up to the node budget. */
  method AdmitLevel(t: Request, nodes: seq<Node>, level: set<Node>)
    returns (nodes': seq<Node>, frontier: seq<Node>, cut: bool)
    requires |nodes| <= t.nodeBudget
    ensures var next := Sorted(level);
            && cut == (|nodes| + |next| > t.nodeBudget)
            && (cut ==> nodes' == nodes + next[..t.nodeBudget - |nodes|])
            && (!cut ==> nodes' == nodes + next && frontier == next)
  {
    nodes', frontier, cut := nodes, [], false;
    var rest := level;
    while rest != {}
      invariant !cut && nodes' == nodes + frontier && |nodes'| <= t.nodeBudget
      invariant Sorted(level) == frontier + Sorted(rest)
      decreases |rest|
    {
      if |nodes'| == t.nodeBudget {
        cut := true;
        return;
      }
      var reached := Smallest(rest);
      rest := rest - {reached};
      nodes', frontier := nodes' + [reached], frontier + [reached];
    }
  }

  /** Whether a followable, unspent edge remains at some frontier node. */
  method AnyWork(t: Request, claims: seq<Claim>, frontier: seq<Node>, spent: set<ClaimId>, ghost edges: seq<Claim>)
    returns (more: bool)
    requires spent == Ids(edges)
    ensures more == WorkLeft(t, claims, frontier, edges)
  {
    for i := 0 to |frontier|
      invariant !WorkLeft(t, claims, frontier[..i], edges)
    {
      for j := 0 to |claims|
        invariant forall k :: 0 <= k < j ==> !(Touches(t, claims[k], frontier[i]) && claims[k].claimId !in spent)
      {
        if Touches(t, claims[j], frontier[i]) && claims[j].claimId !in spent {
          return true;
        }
      }
      assert frontier[..i + 1] == frontier[..i] + [frontier[i]];
    }
    assert frontier[..|frontier|] == frontier;
    return false;
  }

  lemma WorkLeftAtStart(t: Request, claims: seq<Claim>)
    ensures WorkLeft(t, claims, [t.start], []) == StartTouched(t, claims)
  {
    if StartTouched(t, claims) {
      var c :| c in claims && Touches(t, c, t.start);
      assert t.start in [t.start] && c.claimId !in Ids([]);
    }
  }

  /** One turn of the depth loop: either the report is decided, or the next level is the frontier. */
  method Round(t: Request, claims: seq<Claim>, ghost depth: nat, nodes: seq<Node>, edges: seq<Claim>,
               spent: set<ClaimId>, frontier: seq<Node>)
    returns (decided: Option<Report>, nodes': seq<Node>, edges': seq<Claim>, spent': set<ClaimId>, frontier': seq<Node>)
    requires InIdOrder(claims) && 0 < depth && frontier != []
    requires |nodes| <= t.nodeBudget && |edges| <= t.edgeBudget && spent == Ids(edges)
    ensures decided.Some? ==> decided.value == Explore(t, claims, depth, nodes, edges, frontier)
    ensures decided.None? ==> |nodes'| <= t.nodeBudget && |edges'| <= t.edgeBudget && spent' == Ids(edges')
    ensures decided.None? ==>
              Explore(t, claims, depth, nodes, edges, frontier) == Explore(t, claims, depth - 1, nodes', edges', frontier')
  {
    nodes', frontier' := nodes, frontier;
    var visited := set n | n in nodes;
    var level, cut;
    edges', spent', level, cut := ExpandLevel(t, claims, frontier, edges, spent, visited);
    if cut {
      return Some(Report(nodes, edges', true)), nodes', edges', spent', frontier';
    }
    assert level == ReachedFrom(t, claims, frontier, edges) - ToSet(nodes);
    nodes', frontier', cut := AdmitLevel(t, nodes, level);
    decided := if cut then Some(Report(nodes', edges', true)) else None;
  }

  lemma ExploreEnd(t: Request, claims: seq<Claim>, depth: nat, nodes: seq<Node>, edges: seq<Claim>, frontier: seq<Node>)
    requires |nodes| <= t.nodeBudget && |edges| <= t.edgeBudget
    requires depth == 0 || frontier == []
    ensures Explore(t, claims, depth, nodes, edges, frontier) == Report(nodes, edges, WorkLeft(t, claims, frontier, edges))
  {
  }

  /** `InMemoryKnowledgeGraphStore::traverse`. */
  method Traverse(t: Request, claims: seq<Claim>) returns (r: Report)
    requires InIdOrder(claims) && 1 <= t.nodeBudget
    ensures r == Traversed(t, claims)
  {
    hide Explore, StartTouched, WorkLeft;
    WorkLeftAtStart(t, claims);
    var touched := AnyWork(t, claims, [t.start], {}, []);
    if !touched {
      return Report([], [], false);
    }
    var nodes, edges, spent, frontier := [t.start], [], {}, [t.start];
    var d := 0;
    while d < t.depth && frontier != []
      invariant d <= t.depth
      invariant |nodes| <= t.nodeBudget && |edges| <= t.edgeBudget && spent == Ids(edges)
      invariant Traversed(t, claims) == Explore(t, claims, t.depth - d, nodes, edges, frontier)
    {
      var decided;
      decided, nodes, edges, spent, frontier := Round(t, claims, t.depth - d, nodes, edges, spent, frontier);
      if decided.Some? {
        return decided.value;
      }
      d := d + 1;
    }
    ExploreEnd(t, claims, t.depth - d, nodes, edges, frontier);
    var more := AnyWork(t, claims, frontier, spent, edges);
    return Report(nodes, edges, more);
  }
}

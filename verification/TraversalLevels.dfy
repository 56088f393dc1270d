/** What a bounded traversal reports, stated against shortest distances and reachability. */
module TraversalLevels {
  import opened Common
  import opened ClaimModel
  import opened Traversal

  /** The nodes one hop away from a set. */
  ghost function Hop(t: Request, claims: seq<Claim>, from: set<Node>): set<Node> {
    set c, n | n in from && c in claims && Touches(t, c, n) :: Neighbor(c, n, t.direction).value
  }

  /** The nodes at distance at most `k` from the start. */
  ghost function Within(t: Request, claims: seq<Claim>, k: nat): set<Node> {
    if k == 0 then {t.start} else Within(t, claims, k - 1) + Hop(t, claims, Within(t, claims, k - 1))
  }

  ghost predicate Reachable(t: Request, claims: seq<Claim>, node: Node) {
    exists k: nat :: node in Within(t, claims, k)
  }

  /** The nodes at distance exactly `k`, ascending by id. */
  ghost function Level(t: Request, claims: seq<Claim>, k: nat): seq<Node> {
    if k == 0 then [t.start] else Sorted(Within(t, claims, k) - Within(t, claims, k - 1))
  }

  /** Breadth-first level order down to distance `k`. */
  ghost function LevelOrder(t: Request, claims: seq<Claim>, k: nat): seq<Node> {
    if k == 0 then [t.start] else LevelOrder(t, claims, k - 1) + Level(t, claims, k)
  }

  /** Every edge followable from distance less than `k`, once, in the order of its first end. */
  ghost function EdgeOrder(t: Request, claims: seq<Claim>, k: nat): seq<Claim> {
    if k == 0 then [] else EdgesFrom(t, claims, LevelOrder(t, claims, k - 1), [])
  }

  /** The report holds every reachable node and every edge followable at one. */
  ghost predicate Complete(t: Request, claims: seq<Claim>, r: Report) {
    && (forall n :: Reachable(t, claims, n) ==> n in r.nodes)
    && (forall c, n :: c in claims && Reachable(t, claims, n) && Touches(t, c, n) ==> c in r.edges)
  }

  // ----- Level order -----

  lemma WithinGrows(t: Request, claims: seq<Claim>, k: nat)
    ensures Within(t, claims, k) <= Within(t, claims, k + 1)
  {
    hide Hop;
  }

  lemma {:induction false} LevelOrderSet(t: Request, claims: seq<Claim>, k: nat)
    ensures ToSet(LevelOrder(t, claims, k)) == Within(t, claims, k)
  {
    if k > 0 {
      LevelOrderSet(t, claims, k - 1);
      LevelOrderSetStep(t, claims, k);
    }
  }

  lemma LevelOrderSetStep(t: Request, claims: seq<Claim>, k: nat)
    requires k > 0 && ToSet(LevelOrder(t, claims, k - 1)) == Within(t, claims, k - 1)
    ensures ToSet(LevelOrder(t, claims, k)) == Within(t, claims, k)
  {
    hide Hop, Sorted, Within, ToSet;
    WithinGrows(t, claims, k - 1);
    SortedSet(Within(t, claims, k) - Within(t, claims, k - 1));
    ToSetConcat(LevelOrder(t, claims, k - 1), Level(t, claims, k));
    UnionDifference(Within(t, claims, k - 1), Within(t, claims, k));
  }

  lemma DistinctConcat(a: seq<Node>, b: seq<Node>)
    requires Distinct(a) && StrictlyAscending(b) && ToSet(a) !! ToSet(b)
    ensures Distinct(a + b)
  {
    forall i, j | 0 <= i < |a| && 0 <= j < |b| ensures a[i] != b[j] {
      assert a[i] in ToSet(a) && b[j] in ToSet(b);
    }
  }

  lemma {:induction false} LevelOrderDistinct(t: Request, claims: seq<Claim>, k: nat)
    ensures Distinct(LevelOrder(t, claims, k))
  {
    hide Hop, Sorted, Within, ToSet;
    if k > 0 {
      LevelOrderDistinct(t, claims, k - 1);
      LevelOrderSet(t, claims, k - 1);
      var found := Within(t, claims, k) - Within(t, claims, k - 1);
      SortedAscending(found);
      SortedSet(found);
      DistinctConcat(LevelOrder(t, claims, k - 1), Level(t, claims, k));
    }
  }

  lemma LevelOrderMember(t: Request, claims: seq<Claim>, k: nat, n: Node)
    ensures n in LevelOrder(t, claims, k) <==> n in Within(t, claims, k)
  {
    LevelOrderSet(t, claims, k);
    assert n in LevelOrder(t, claims, k) <==> n in ToSet(LevelOrder(t, claims, k));
  }

  lemma HopMonotone(t: Request, claims: seq<Claim>, a: set<Node>, b: set<Node>)
    requires a <= b
    ensures Hop(t, claims, a) <= Hop(t, claims, b)
  {
  }

  lemma {:induction false} WithinMonotone(t: Request, claims: seq<Claim>, j: nat, k: nat)
    requires j <= k
    ensures Within(t, claims, j) <= Within(t, claims, k)
    decreases k - j
  {
    hide Hop;
    if j < k {
      WithinMonotone(t, claims, j, k - 1);
    }
  }

  lemma {:induction false} WithinClosed(t: Request, claims: seq<Claim>, k: nat, j: nat)
    requires Hop(t, claims, Within(t, claims, k)) <= Within(t, claims, k)
    ensures Within(t, claims, j) <= Within(t, claims, k)
  {
    hide Hop;
    if j <= k {
      WithinMonotone(t, claims, j, k);
    } else {
      WithinClosed(t, claims, k, j - 1);
      HopMonotone(t, claims, Within(t, claims, j - 1), Within(t, claims, k));
    }
  }

  // ----- Followed edges -----

  lemma {:induction false} EdgesFromConcat(t: Request, claims: seq<Claim>, a: seq<Node>, b: seq<Node>, edges: seq<Claim>)
    ensures EdgesFrom(t, claims, a + b, edges) == EdgesFrom(t, claims, b, EdgesFrom(t, claims, a, edges))
  {
    if b == [] {
      assert a + b == a;
    } else {
      var front := b[..|b| - 1];
      EdgesFromConcat(t, claims, a, front, edges);
      assert (a + b)[..|a + b| - 1] == a + front;
    }
  }

  lemma IdNames(claims: seq<Claim>, edges: seq<Claim>, c: Claim)
    requires InIdOrder(claims) && c in claims && forall e :: e in edges ==> e in claims
    ensures c.claimId in Ids(edges) <==> c in edges
  {
    if c.claimId in Ids(edges) {
      var e :| e in edges && e.claimId == c.claimId;
      var i :| 0 <= i < |claims| && claims[i] == e;
      var j :| 0 <= j < |claims| && claims[j] == c;
      assert i == j;
    }
  }

  ghost predicate TouchesSome(t: Request, c: Claim, nodes: seq<Node>) {
    exists n :: n in nodes && Touches(t, c, n)
  }

  lemma {:induction false} EdgesFromMember(t: Request, claims: seq<Claim>, nodes: seq<Node>, c: Claim)
    requires InIdOrder(claims)
    ensures c in EdgesFrom(t, claims, nodes, []) <==> c in claims && TouchesSome(t, c, nodes)
    decreases |nodes|
  {
    if nodes != [] {
      var front, node := nodes[..|nodes| - 1], nodes[|nodes| - 1];
      var before := EdgesFrom(t, claims, front, []);
      EdgesFromMember(t, claims, front, c);
      NewEdgesMember(t, claims, node, Ids(before), c);
      if c in claims {
        EdgesFromClaims(t, claims, front);
        IdNames(claims, before, c);
      }
      assert nodes == front + [node];
      assert TouchesSome(t, c, nodes) <==> TouchesSome(t, c, front) || Touches(t, c, node);
    }
  }

  lemma {:induction false} EdgesFromClaims(t: Request, claims: seq<Claim>, nodes: seq<Node>)
    requires InIdOrder(claims)
    ensures forall e :: e in EdgesFrom(t, claims, nodes, []) ==> e in claims
    decreases |nodes|
  {
    if nodes != [] {
      var front, node := nodes[..|nodes| - 1], nodes[|nodes| - 1];
      EdgesFromClaims(t, claims, front);
      var before := EdgesFrom(t, claims, front, []);
      forall e | e in NewEdges(t, claims, node, Ids(before)) ensures e in claims {
        NewEdgesMember(t, claims, node, Ids(before), e);
      }
    }
  }

  lemma {:induction false} EdgesFromDistinct(t: Request, claims: seq<Claim>, nodes: seq<Node>)
    requires InIdOrder(claims)
    ensures Distinct(EdgesFrom(t, claims, nodes, []))
  {
    if nodes != [] {
      var front, node := nodes[..|nodes| - 1], nodes[|nodes| - 1];
      EdgesFromDistinct(t, claims, front);
      var before := EdgesFrom(t, claims, front, []);
      var added := NewEdges(t, claims, node, Ids(before));
      NewEdgesAscending(t, claims, node, Ids(before));
      forall i, j | 0 <= i < |before| && 0 <= j < |added| ensures before[i] != added[j] {
        NewEdgesMember(t, claims, node, Ids(before), added[j]);
        assert before[i].claimId in Ids(before);
      }
    }
  }

  /** An edge with two ends on the traversal leads from either to the other. */
  lemma TouchTwice(t: Request, c: Claim, n: Node, p: Node)
    requires Touches(t, c, n) && Touches(t, c, p) && n != p
    ensures Neighbor(c, n, t.direction) == Some(p)
  {
  }

  /** Spent edges hide no node: what a level newly reaches is everything one hop away. */
  lemma {:induction false} ReachedIsHop(t: Request, claims: seq<Claim>, done: seq<Node>, level: seq<Node>, visited: set<Node>)
    requires InIdOrder(claims) && Distinct(done + level)
    requires forall n :: n in done + level ==> n in visited
    ensures ReachedFrom(t, claims, level, EdgesFrom(t, claims, done, [])) - visited
            == Hop(t, claims, ToSet(level)) - visited
    decreases |level|
  {
    hide Hop;
    if level != [] {
      var front, node := level[..|level| - 1], level[|level| - 1];
      assert done + level == (done + front) + [node];
      DistinctAppend(done + front, node);
      ReachedIsHop(t, claims, done, front, visited);
      EdgesFromConcat(t, claims, done, front, []);
      NodeReachIsHop(t, claims, done + front, node, visited);
      assert level == front + [node];
      ToSetConcat(front, [node]);
      assert ToSet([node]) == {node};
      HopUnion(t, claims, ToSet(front), {node});
      var first := EdgesFrom(t, claims, done, []);
      var added := NewEdges(t, claims, node, Ids(EdgesFrom(t, claims, front, first)));
      assert ReachedFrom(t, claims, level, first)
          == ReachedFrom(t, claims, front, first) + NeighborsOf(t, added, node);
      UnionMinus(ReachedFrom(t, claims, front, first), NeighborsOf(t, added, node),
                 Hop(t, claims, ToSet(front)), Hop(t, claims, {node}), visited);
    } else {
      HopOfNone(t, claims);
      assert ToSet(level) == {};
    }
  }

  lemma UnionMinus<T>(a: set<T>, b: set<T>, c: set<T>, d: set<T>, v: set<T>)
    requires a - v == c - v && b - v == d - v
    ensures (a + b) - v == (c + d) - v
  {
    forall x ensures x in (a + b) - v <==> x in (c + d) - v {
      assert x in a - v <==> x in c - v;
      assert x in b - v <==> x in d - v;
    }
  }

  lemma HopUnion(t: Request, claims: seq<Claim>, a: set<Node>, b: set<Node>)
    ensures Hop(t, claims, a + b) == Hop(t, claims, a) + Hop(t, claims, b)
  {
  }

  lemma NodeReachIsHop(t: Request, claims: seq<Claim>, before: seq<Node>, node: Node, visited: set<Node>)
    requires InIdOrder(claims) && node !in before
    requires forall n :: n in before ==> n in visited
    ensures NeighborsOf(t, NewEdges(t, claims, node, Ids(EdgesFrom(t, claims, before, []))), node) - visited
            == Hop(t, claims, {node}) - visited
  {
    var edges := EdgesFrom(t, claims, before, []);
    var added := NewEdges(t, claims, node, Ids(edges));
    EdgesFromClaims(t, claims, before);
    forall c | c in claims && Touches(t, c, node) && Neighbor(c, node, t.direction).value !in visited
      ensures c in added
    {
      NewEdgesMember(t, claims, node, Ids(edges), c);
      IdNames(claims, edges, c);
      EdgesFromMember(t, claims, before, c);
      if TouchesSome(t, c, before) {
        var p :| p in before && Touches(t, c, p);
        TouchTwice(t, c, node, p);
      }
    }
    forall c | c in added ensures c in claims && Touches(t, c, node) {
      NewEdgesMember(t, claims, node, Ids(edges), c);
    }
  }

  /** The nodes settled before level `k` is expanded. */
  ghost function Settled(t: Request, claims: seq<Claim>, k: nat): seq<Node> {
    if k == 0 then [] else LevelOrder(t, claims, k - 1)
  }

  lemma SettledOrder(t: Request, claims: seq<Claim>, k: nat)
    ensures LevelOrder(t, claims, k) == Settled(t, claims, k) + Level(t, claims, k)
    ensures EdgeOrder(t, claims, k) == EdgesFrom(t, claims, Settled(t, claims, k), [])
    ensures EdgesFrom(t, claims, Level(t, claims, k), EdgeOrder(t, claims, k)) == EdgeOrder(t, claims, k + 1)
  {
    EdgesFromConcat(t, claims, Settled(t, claims, k), Level(t, claims, k), []);
  }

  lemma HopOfNone(t: Request, claims: seq<Claim>)
    ensures Hop(t, claims, {}) == {}
  {
  }

  lemma HopOfSettled(t: Request, claims: seq<Claim>, k: nat)
    ensures Hop(t, claims, ToSet(Settled(t, claims, k))) <= Within(t, claims, k)
  {
    hide Hop, LevelOrder;
    if k > 0 {
      LevelOrderSet(t, claims, k - 1);
      var inner := Within(t, claims, k - 1);
      assert Within(t, claims, k) == inner + Hop(t, claims, inner);
      assert ToSet(Settled(t, claims, k)) == inner;
    } else {
      HopOfNone(t, claims);
      assert ToSet<Node>([]) == {};
    }
  }

  lemma HopOfWithin(t: Request, claims: seq<Claim>, k: nat)
    ensures Hop(t, claims, Within(t, claims, k))
            == Hop(t, claims, ToSet(Settled(t, claims, k))) + Hop(t, claims, ToSet(Level(t, claims, k)))
  {
    SettledOrder(t, claims, k);
    LevelOrderSet(t, claims, k);
    ToSetConcat(Settled(t, claims, k), Level(t, claims, k));
    HopUnion(t, claims, ToSet(Settled(t, claims, k)), ToSet(Level(t, claims, k)));
  }

  lemma DifferenceOfUnion<T>(within: set<T>, a: set<T>, b: set<T>)
    requires a <= within
    ensures within + (a + b) - within == b - within
  {
  }

  /** Expanding level `k` finds exactly level `k + 1`. */
  lemma NextLevel(t: Request, claims: seq<Claim>, k: nat)
    requires InIdOrder(claims)
    ensures Sorted(ReachedFrom(t, claims, Level(t, claims, k), EdgeOrder(t, claims, k)) - ToSet(LevelOrder(t, claims, k)))
            == Level(t, claims, k + 1)
  {
    var done, level := Settled(t, claims, k), Level(t, claims, k);
    SettledOrder(t, claims, k);
    LevelOrderSet(t, claims, k);
    LevelOrderDistinct(t, claims, k);
    var visited := Within(t, claims, k);
    forall n | n in done + level ensures n in visited {
      assert n in ToSet(done + level);
    }
    ReachedIsHop(t, claims, done, level, visited);
    HopOfSettled(t, claims, k);
    HopOfWithin(t, claims, k);
    DifferenceOfUnion(visited, Hop(t, claims, ToSet(done)), Hop(t, claims, ToSet(level)));
  }

  // ----- The traversal, level by level -----

  ghost predicate Fits(t: Request, claims: seq<Claim>, k: nat) {
    |LevelOrder(t, claims, k)| <= t.nodeBudget && |EdgeOrder(t, claims, k)| <= t.edgeBudget
  }

  /** The traversal once level `k` is the frontier and `depth` levels remain. */
  ghost function ExploreAt(t: Request, claims: seq<Claim>, k: nat, depth: nat): Report
    requires Fits(t, claims, k)
  {
    Explore(t, claims, depth, LevelOrder(t, claims, k), EdgeOrder(t, claims, k), Level(t, claims, k))
  }

  lemma ExploreAtEnd(t: Request, claims: seq<Claim>, k: nat, depth: nat)
    requires Fits(t, claims, k) && (depth == 0 || Level(t, claims, k) == [])
    ensures ExploreAt(t, claims, k, depth)
            == Report(LevelOrder(t, claims, k), EdgeOrder(t, claims, k),
                      WorkLeft(t, claims, Level(t, claims, k), EdgeOrder(t, claims, k)))
  {
    hide Explore, LevelOrder, EdgeOrder, Level, WorkLeft, Within;
    ExploreEnd(t, claims, depth, LevelOrder(t, claims, k), EdgeOrder(t, claims, k), Level(t, claims, k));
  }

  lemma ExploreStep(t: Request, claims: seq<Claim>, depth: nat, nodes: seq<Node>, edges: seq<Claim>, frontier: seq<Node>,
                    followed: seq<Claim>, next: seq<Node>)
    requires |nodes| <= t.nodeBudget && |edges| <= t.edgeBudget && 0 < depth && frontier != []
    requires followed == EdgesFrom(t, claims, frontier, edges)
    requires next == Sorted(ReachedFrom(t, claims, frontier, edges) - ToSet(nodes))
    ensures var r := Explore(t, claims, depth, nodes, edges, frontier);
            if |followed| > t.edgeBudget then r == Report(nodes, followed[..t.edgeBudget], true)
            else if |nodes| + |next| > t.nodeBudget then r == Report((nodes + next)[..t.nodeBudget], followed, true)
            else r == Explore(t, claims, depth - 1, nodes + next, followed, next)
  {
    hide EdgesFrom, Sorted, ReachedFrom, ToSet;
    if |nodes| + |next| > t.nodeBudget {
      assert (nodes + next)[..t.nodeBudget] == nodes + next[..t.nodeBudget - |nodes|];
    }
  }

  lemma ExploreAtStep(t: Request, claims: seq<Claim>, k: nat, depth: nat)
    requires InIdOrder(claims) && Fits(t, claims, k) && 0 < depth && Level(t, claims, k) != []
    ensures var nodes, edges := LevelOrder(t, claims, k + 1), EdgeOrder(t, claims, k + 1);
            var r := ExploreAt(t, claims, k, depth);
            if |edges| > t.edgeBudget then r == Report(LevelOrder(t, claims, k), edges[..t.edgeBudget], true)
            else if |nodes| > t.nodeBudget then r == Report(nodes[..t.nodeBudget], edges, true)
            else r == ExploreAt(t, claims, k + 1, depth - 1)
  {
    hide Explore, EdgeOrder, Level, EdgesFrom, Sorted, ReachedFrom, ToSet, Within, Settled;
    SettledOrder(t, claims, k);
    NextLevel(t, claims, k);
    assert LevelOrder(t, claims, k + 1) == LevelOrder(t, claims, k) + Level(t, claims, k + 1);
    ExploreStep(t, claims, depth, LevelOrder(t, claims, k), EdgeOrder(t, claims, k), Level(t, claims, k),
                EdgeOrder(t, claims, k + 1), Level(t, claims, k + 1));
  }

  lemma {:induction false} OrdersExtend(t: Request, claims: seq<Claim>, k: nat, j: nat)
    requires k <= j
    ensures LevelOrder(t, claims, k) <= LevelOrder(t, claims, j)
    ensures EdgeOrder(t, claims, k) <= EdgeOrder(t, claims, j)
    decreases j - k
  {
    hide Level, EdgesFrom;
    if k < j {
      OrdersExtend(t, claims, k + 1, j);
      EdgeOrderExtends(t, claims, k);
    }
  }

  lemma EdgeOrderExtends(t: Request, claims: seq<Claim>, k: nat)
    ensures EdgeOrder(t, claims, k) <= EdgeOrder(t, claims, k + 1)
  {
    SettledOrder(t, claims, k);
    hide EdgeOrder, Level;
    var level, edges := Level(t, claims, k), EdgeOrder(t, claims, k);
    EdgesFromPrefix(t, claims, level, edges, 0);
    assert level[..0] == [];
  }

  /** An empty level ends the graph: no longer distance adds a node or an edge. */
  lemma {:induction false} EmptyLevelStops(t: Request, claims: seq<Claim>, k: nat, j: nat)
    requires InIdOrder(claims) && Level(t, claims, k) == [] && k <= j
    ensures LevelOrder(t, claims, j) == LevelOrder(t, claims, k)
    ensures EdgeOrder(t, claims, j) == EdgeOrder(t, claims, k)
    decreases j - k
  {
    if k < j {
      NextLevel(t, claims, k);
      SettledOrder(t, claims, k);
      assert ReachedFrom(t, claims, [], EdgeOrder(t, claims, k)) == {};
      assert {} - ToSet(LevelOrder(t, claims, k)) == {};
      assert Level(t, claims, k + 1) == [] by {
        hide Level;
        assert Sorted({}) == [];
      }
      hide Level, EdgeOrder, ReachedFrom, Within;
      assert LevelOrder(t, claims, k + 1) == LevelOrder(t, claims, k);
      assert EdgeOrder(t, claims, k + 1) == EdgeOrder(t, claims, k);
      EmptyLevelStops(t, claims, k + 1, j);
    }
  }

  // ----- What every report is -----

  ghost predicate Ordered(t: Request, claims: seq<Claim>, j: nat, r: Report) {
    && r.nodes <= LevelOrder(t, claims, j) && |r.nodes| <= t.nodeBudget
    && r.edges <= EdgeOrder(t, claims, j) && |r.edges| <= t.edgeBudget
    && (|r.nodes| == t.nodeBudget || |r.edges| == t.edgeBudget
        || (r.nodes == LevelOrder(t, claims, j) && r.edges == EdgeOrder(t, claims, j)))
  }

  lemma {:induction false} ExploreOrdered(t: Request, claims: seq<Claim>, k: nat, depth: nat)
    requires InIdOrder(claims) && Fits(t, claims, k)
    ensures Ordered(t, claims, k + depth, ExploreAt(t, claims, k, depth))
    ensures Fits(t, claims, k + depth) ==>
              ExploreAt(t, claims, k, depth).nodes == LevelOrder(t, claims, k + depth)
              && ExploreAt(t, claims, k, depth).edges == EdgeOrder(t, claims, k + depth)
    decreases depth
  {
    hide LevelOrder, EdgeOrder, Level, WorkLeft, ExploreAt;
    if depth == 0 || Level(t, claims, k) == [] {
      ExploreAtEnd(t, claims, k, depth);
      if depth != 0 {
        EmptyLevelStops(t, claims, k, k + depth);
      }
    } else {
      ExploreAtStep(t, claims, k, depth);
      OrdersExtend(t, claims, k, k + depth);
      OrdersExtend(t, claims, k + 1, k + depth);
      if Fits(t, claims, k + 1) {
        ExploreOrdered(t, claims, k + 1, depth - 1);
      }
    }
  }

  lemma ReachableWithin(t: Request, claims: seq<Claim>, k: nat, n: Node)
    requires n in LevelOrder(t, claims, k)
    ensures Reachable(t, claims, n)
  {
    hide LevelOrder, Within;
    LevelOrderMember(t, claims, k, n);
  }

  /** When no work is left at the frontier, the explored part is closed. */
  lemma NoWorkCloses(t: Request, claims: seq<Claim>, k: nat)
    requires InIdOrder(claims)
    requires !WorkLeft(t, claims, Level(t, claims, k), EdgeOrder(t, claims, k))
    ensures Hop(t, claims, ToSet(Level(t, claims, k))) <= Within(t, claims, k)
    ensures forall c, n :: c in claims && n in Level(t, claims, k) && Touches(t, c, n) ==> c in EdgeOrder(t, claims, k)
  {
    hide LevelOrder, EdgeOrder, Level, EdgesFrom, Within, Settled;
    var settled, level, edges := Settled(t, claims, k), Level(t, claims, k), EdgeOrder(t, claims, k);
    SettledOrder(t, claims, k);
    LevelOrderDistinct(t, claims, k);
    EdgesFromClaims(t, claims, settled);
    forall c, n | c in claims && n in level && Touches(t, c, n)
      ensures c in edges && Neighbor(c, n, t.direction).value in Within(t, claims, k)
    {
      IdNames(claims, edges, c);
      EdgesFromMember(t, claims, settled, c);
      var p :| p in settled && Touches(t, c, p);
      assert n != p by {
        var i :| 0 <= i < |settled| && settled[i] == p;
        var j :| 0 <= j < |level| && level[j] == n;
        assert (settled + level)[i] == p && (settled + level)[|settled| + j] == n;
      }
      TouchTwice(t, c, n, p);
      LevelOrderMember(t, claims, k, p);
    }
  }

  lemma ClosedComplete(t: Request, claims: seq<Claim>, k: nat)
    requires InIdOrder(claims)
    requires !WorkLeft(t, claims, Level(t, claims, k), EdgeOrder(t, claims, k))
    ensures forall n :: Reachable(t, claims, n) ==> n in LevelOrder(t, claims, k)
  {
    hide LevelOrder, EdgeOrder, Level, EdgesFrom, Within, Settled, Hop, WorkLeft;
    NoWorkCloses(t, claims, k);
    HopOfSettled(t, claims, k);
    HopOfWithin(t, claims, k);
    forall n | Reachable(t, claims, n) ensures n in LevelOrder(t, claims, k) {
      var j: nat :| n in Within(t, claims, j);
      WithinClosed(t, claims, k, j);
      LevelOrderMember(t, claims, k, n);
    }
  }

  lemma EndExact(t: Request, claims: seq<Claim>, k: nat)
    requires InIdOrder(claims)
    ensures var work := WorkLeft(t, claims, Level(t, claims, k), EdgeOrder(t, claims, k));
            work <==> !Complete(t, claims, Report(LevelOrder(t, claims, k), EdgeOrder(t, claims, k), work))
  {
    hide LevelOrder, EdgeOrder, Level, EdgesFrom, Within, Settled, Reachable;
    var settled, level, edges := Settled(t, claims, k), Level(t, claims, k), EdgeOrder(t, claims, k);
    SettledOrder(t, claims, k);
    if WorkLeft(t, claims, level, edges) {
      var n, c :| n in level && c in claims && Touches(t, c, n) && c.claimId !in Ids(edges);
      assert c !in edges;
      ReachableWithin(t, claims, k, n);
    } else {
      ClosedComplete(t, claims, k);
      NoWorkCloses(t, claims, k);
      forall c, n | c in claims && Reachable(t, claims, n) && Touches(t, c, n) ensures c in edges {
        assert n in settled + level;
        EdgesFromMember(t, claims, settled, c);
      }
    }
  }

  /** A budget cut always leaves something reachable out. */
  lemma CutIncomplete(t: Request, claims: seq<Claim>, k: nat, r: Report)
    requires InIdOrder(claims)
    requires (r.edges < EdgeOrder(t, claims, k + 1)) || (r.nodes < LevelOrder(t, claims, k))
    ensures !Complete(t, claims, r)
  {
    hide LevelOrder, EdgeOrder, Level, EdgesFrom, Within, Settled, Reachable;
    if r.nodes < LevelOrder(t, claims, k) {
      var all := LevelOrder(t, claims, k);
      LevelOrderDistinct(t, claims, k);
      assert all[|r.nodes|] in all && all[|r.nodes|] !in r.nodes;
      ReachableWithin(t, claims, k, all[|r.nodes|]);
    } else {
      EdgeCutIncomplete(t, claims, k, r);
    }
  }

  lemma EdgeCutIncomplete(t: Request, claims: seq<Claim>, k: nat, r: Report)
    requires InIdOrder(claims)
    requires r.edges < EdgeOrder(t, claims, k + 1)
    ensures !Complete(t, claims, r)
  {
    hide LevelOrder, Level, EdgesFrom, Within, Reachable;
    var nodes, all := LevelOrder(t, claims, k), EdgeOrder(t, claims, k + 1);
    assert all == EdgesFrom(t, claims, nodes, []);
    EdgesFromDistinct(t, claims, nodes);
    var c := all[|r.edges|];
    assert c in all && c !in r.edges;
    EdgesFromMember(t, claims, nodes, c);
    var n :| n in nodes && Touches(t, c, n);
    ReachableWithin(t, claims, k, n);
  }

  lemma {:induction false} ExploreExact(t: Request, claims: seq<Claim>, k: nat, depth: nat)
    requires InIdOrder(claims) && Fits(t, claims, k)
    ensures var r := ExploreAt(t, claims, k, depth); r.truncated <==> !Complete(t, claims, r)
    decreases depth
  {
    hide LevelOrder, EdgeOrder, Level, WorkLeft, ExploreAt, Complete;
    if depth == 0 || Level(t, claims, k) == [] {
      ExploreAtEnd(t, claims, k, depth);
      EndExact(t, claims, k);
    } else {
      ExploreAtStep(t, claims, k, depth);
      var r := ExploreAt(t, claims, k, depth);
      if Fits(t, claims, k + 1) {
        ExploreExact(t, claims, k + 1, depth - 1);
      } else if |EdgeOrder(t, claims, k + 1)| > t.edgeBudget {
        CutIncomplete(t, claims, k, r);
      } else {
        CutIncomplete(t, claims, k + 1, r);
      }
    }
  }

  // ----- Distances are path lengths -----

  /** A walk along followable edges, one neighbour after the other. */
  ghost predicate IsPath(t: Request, claims: seq<Claim>, path: seq<Node>) {
    && path != [] && path[0] == t.start
    && forall i :: 0 < i < |path| ==> path[i] in Hop(t, claims, {path[i - 1]})
  }

  ghost predicate PathTo(t: Request, claims: seq<Claim>, path: seq<Node>, node: Node) {
    IsPath(t, claims, path) && path[|path| - 1] == node
  }

  /** `Within(k)` holds exactly the nodes some path of at most `k` hops reaches. */
  lemma WithinIsPathLength(t: Request, claims: seq<Claim>, k: nat, node: Node)
    ensures node in Within(t, claims, k) <==> exists path :: PathTo(t, claims, path, node) && |path| <= k + 1
  {
    if node in Within(t, claims, k) {
      var path := PathWithin(t, claims, k, node);
    }
    if path :| PathTo(t, claims, path, node) && |path| <= k + 1 {
      WithinOfPath(t, claims, path);
      WithinMonotone(t, claims, |path| - 1, k);
    }
  }

  lemma {:induction false} PathWithin(t: Request, claims: seq<Claim>, k: nat, node: Node) returns (path: seq<Node>)
    requires node in Within(t, claims, k)
    ensures PathTo(t, claims, path, node) && |path| <= k + 1
  {
    hide Hop;
    if k == 0 {
      path := [t.start];
    } else if node in Within(t, claims, k - 1) {
      path := PathWithin(t, claims, k - 1, node);
    } else {
      var from := HopSource(t, claims, Within(t, claims, k - 1), node);
      hide Within;
      var front := PathWithin(t, claims, k - 1, from);
      path := front + [node];
    }
  }

  lemma HopSource(t: Request, claims: seq<Claim>, nodes: set<Node>, node: Node) returns (from: Node)
    requires node in Hop(t, claims, nodes)
    ensures from in nodes && node in Hop(t, claims, {from})
  {
    var c, n :| n in nodes && c in claims && Touches(t, c, n) && Neighbor(c, n, t.direction).value == node;
    from := n;
    assert n in {n};
  }

  lemma {:induction false} WithinOfPath(t: Request, claims: seq<Claim>, path: seq<Node>)
    requires IsPath(t, claims, path)
    ensures path[|path| - 1] in Within(t, claims, |path| - 1)
    decreases |path|
  {
    hide Hop;
    if |path| > 1 {
      var front := path[..|path| - 1];
      WithinOfPath(t, claims, front);
      var last := front[|front| - 1];
      HopMonotone(t, claims, {last}, Within(t, claims, |front| - 1));
    }
  }

  // ----- The theorems -----

  /** `truncated` is exact: it is set if and only if a reachable node or a followable edge is missing;
      everything reported is reachable; an untouched start answers the empty report. */
  lemma TraversalExact(t: Request, claims: seq<Claim>)
    requires InIdOrder(claims) && 1 <= t.nodeBudget
    ensures var r := Traversed(t, claims);
            && (!StartTouched(t, claims) ==> r == Report([], [], false))
            && (StartTouched(t, claims) ==> (r.truncated <==> !Complete(t, claims, r)))
            && (forall n :: n in r.nodes ==> Reachable(t, claims, n))
            && (forall c :: c in r.edges ==> c in claims && exists n :: Reachable(t, claims, n) && Touches(t, c, n))
  {
    hide Explore, LevelOrder, EdgeOrder, Level, WorkLeft, Complete, Reachable, StartTouched;
    if StartTouched(t, claims) {
      StartAt(t, claims);
      var r := Traversed(t, claims);
      ExploreExact(t, claims, 0, t.depth);
      ExploreOrdered(t, claims, 0, t.depth);
      forall n | n in r.nodes ensures Reachable(t, claims, n) {
        ReachableWithin(t, claims, t.depth, n);
      }
      forall c | c in r.edges ensures c in claims && exists n :: Reachable(t, claims, n) && Touches(t, c, n) {
        EdgeTouchesReachable(t, claims, t.depth, c);
      }
    }
  }

  lemma StartAt(t: Request, claims: seq<Claim>)
    requires 1 <= t.nodeBudget && StartTouched(t, claims)
    ensures Fits(t, claims, 0) && Traversed(t, claims) == ExploreAt(t, claims, 0, t.depth)
  {
    hide Explore;
  }

  lemma EdgeTouchesReachable(t: Request, claims: seq<Claim>, k: nat, c: Claim)
    requires InIdOrder(claims) && c in EdgeOrder(t, claims, k)
    ensures c in claims && exists n :: Reachable(t, claims, n) && Touches(t, c, n)
  {
    hide LevelOrder, EdgesFrom, Reachable;
    EdgesFromMember(t, claims, LevelOrder(t, claims, k - 1), c);
    var n :| n in LevelOrder(t, claims, k - 1) && Touches(t, c, n);
    ReachableWithin(t, claims, k - 1, n);
  }

  /** Neither budget is exceeded and nothing is reported twice. */
  lemma TraversalWithinBudgets(t: Request, claims: seq<Claim>)
    requires InIdOrder(claims) && 1 <= t.nodeBudget
    ensures var r := Traversed(t, claims);
            |r.nodes| <= t.nodeBudget && |r.edges| <= t.edgeBudget && Distinct(r.nodes) && Distinct(r.edges)
  {
    hide Explore, LevelOrder, EdgesFrom, StartTouched;
    if StartTouched(t, claims) {
      StartAt(t, claims);
      ExploreOrdered(t, claims, 0, t.depth);
      LevelOrderDistinct(t, claims, t.depth);
      if t.depth > 0 {
        EdgesFromDistinct(t, claims, LevelOrder(t, claims, t.depth - 1));
      }
    }
  }

  /** Nodes are a prefix of breadth-first level order and edges a prefix of its edge order; a report
      that is not the whole order down to the requested depth has a budget exactly full. */
  lemma TraversalInLevelOrder(t: Request, claims: seq<Claim>)
    requires InIdOrder(claims) && 1 <= t.nodeBudget && StartTouched(t, claims)
    ensures Ordered(t, claims, t.depth, Traversed(t, claims))
  {
    hide Explore, LevelOrder, EdgeOrder, Ordered, StartTouched;
    StartAt(t, claims);
    ExploreOrdered(t, claims, 0, t.depth);
  }

  /** An edge followable at a node at distance at most `k`. */
  ghost predicate TouchesWithin(t: Request, claims: seq<Claim>, k: nat, c: Claim) {
    exists n :: n in Within(t, claims, k) && Touches(t, c, n)
  }

  lemma TouchesLevelOrder(t: Request, claims: seq<Claim>, k: nat, c: Claim)
    ensures TouchesSome(t, c, LevelOrder(t, claims, k)) == TouchesWithin(t, claims, k, c)
  {
    hide LevelOrder, Within;
    if TouchesSome(t, c, LevelOrder(t, claims, k)) {
      var n :| n in LevelOrder(t, claims, k) && Touches(t, c, n);
      LevelOrderMember(t, claims, k, n);
    }
    if TouchesWithin(t, claims, k, c) {
      var n :| n in Within(t, claims, k) && Touches(t, c, n);
      LevelOrderMember(t, claims, k, n);
    }
  }

  /** When only the depth cuts, the nodes are those at distance at most `depth` and the edges those
      followable from distance less than `depth`, each once even when both its ends are reached. */
  lemma TraversalDepthCut(t: Request, claims: seq<Claim>)
    requires InIdOrder(claims) && 1 <= t.nodeBudget && 1 <= t.depth && StartTouched(t, claims)
    requires Fits(t, claims, t.depth)
    ensures var r := Traversed(t, claims);
            && (forall n :: n in r.nodes <==> n in Within(t, claims, t.depth))
            && (forall c :: c in r.edges <==> c in claims && TouchesWithin(t, claims, t.depth - 1, c))
  {
    hide Explore, LevelOrder, EdgesFrom, Within, StartTouched, TouchesSome, TouchesWithin;
    StartAt(t, claims);
    ExploreOrdered(t, claims, 0, t.depth);
    forall n ensures n in LevelOrder(t, claims, t.depth) <==> n in Within(t, claims, t.depth) {
      LevelOrderMember(t, claims, t.depth, n);
    }
    forall c ensures c in EdgeOrder(t, claims, t.depth) <==> c in claims && TouchesWithin(t, claims, t.depth - 1, c) {
      EdgesFromMember(t, claims, LevelOrder(t, claims, t.depth - 1), c);
      TouchesLevelOrder(t, claims, t.depth - 1, c);
    }
  }

  ghost predicate NoFarther(t: Request, claims: seq<Claim>, a: Node, b: Node) {
    forall k: nat :: b in Within(t, claims, k) ==> a in Within(t, claims, k)
  }

  /** Earlier nodes are never farther from the start, and equally far nodes ascend by id. */
  lemma {:induction false} LevelOrderByDistance(t: Request, claims: seq<Claim>, k: nat, i: nat, j: nat)
    requires i < j < |LevelOrder(t, claims, k)|
    ensures var order := LevelOrder(t, claims, k);
            && NoFarther(t, claims, order[i], order[j])
            && (NoFarther(t, claims, order[j], order[i]) ==> order[i] < order[j])
  {
    hide Hop, Sorted, Within;
    var order := LevelOrder(t, claims, k);
    var inner := LevelOrder(t, claims, k - 1);
    if j < |inner| {
      LevelOrderByDistance(t, claims, k - 1, i, j);
      assert inner[i] == order[i] && inner[j] == order[j];
    } else {
      var level := Level(t, claims, k);
      assert order[j] == level[j - |inner|] && order[j] in level;
      LevelAtDistance(t, claims, k, order[j]);
      assert order[i] in order;
      LevelOrderMember(t, claims, k, order[i]);
      forall m: nat | order[j] in Within(t, claims, m) ensures order[i] in Within(t, claims, m) {
        if m < k {
          WithinMonotone(t, claims, m, k - 1);
        } else {
          WithinMonotone(t, claims, k, m);
        }
      }
      if i < |inner| {
        assert order[i] == inner[i] && inner[i] in inner;
        LevelOrderMember(t, claims, k - 1, order[i]);
      } else {
        assert order[i] == level[i - |inner|];
        SortedAscending(Within(t, claims, k) - Within(t, claims, k - 1));
      }
    }
  }

  lemma LevelAtDistance(t: Request, claims: seq<Claim>, k: nat, n: Node)
    requires k > 0 && n in Level(t, claims, k)
    ensures n in Within(t, claims, k) && n !in Within(t, claims, k - 1)
  {
    hide Hop, Sorted, Within;
    SortedMember(Within(t, claims, k) - Within(t, claims, k - 1), n);
  }
}

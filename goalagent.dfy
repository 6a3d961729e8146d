/** The goal-based agent: a route map with a start and a goal, validated on
    construction, planned with the selected search, and asked for a list of
    alternative routes found by re-running Dijkstra's algorithm on copies of
    the map with one edge of the shortest path, or one of its interior nodes,
    taken out. */
module GoalAgent {
  import opened Wrappers
  import opened Text
  import opened Graph
  import opened PathSearch
  import opened RouteLists

  datatype Algorithm = DijkstraSearch | AStarSearch | BfsSearch | OtherSearch(name: string)

  /** Errors the agent raises: ValueError on construction or for A* without a
      heuristic, KeyError when Dijkstra or A* meets a dangling edge target. */
  datatype AgentError =
    | StartNotInRoutes(start: Node)
    | GoalNotInRoutes(goal: Node)
    | HeuristicMissing
    | KeyMissing(key: Node)

  datatype Agent = Agent(routes: Graph, start: Node, goal: Node,
                         heuristic: Option<(Node, Node) -> real>, algorithm: Algorithm)

  predicate Valid(a: Agent)
  {
    a.start in a.routes && a.goal in a.routes
  }

  /** The constructor: start and goal must be keys of the routes; dangling
      edge targets are only warned about, so they do not stop construction. */
  function NewAgent(routes: Graph, start: Node, goal: Node,
                    heuristic: Option<(Node, Node) -> real>, algorithm: Algorithm): (r: Result<Agent, AgentError>)
    ensures r.Ok? <==> start in routes && goal in routes
    ensures r.Ok? ==> Valid(r.value) && r.value.routes == routes && r.value.start == start &&
                      r.value.goal == goal && r.value.algorithm == algorithm
    ensures start !in routes ==> r == Err(StartNotInRoutes(start))
    ensures start in routes && goal !in routes ==> r == Err(GoalNotInRoutes(goal))
  {
    if start !in routes then Err(StartNotInRoutes(start))
    else if goal !in routes then Err(GoalNotInRoutes(goal))
    else Ok(Agent(routes, start, goal, heuristic, algorithm))
  }

  // ---------------------------------------------------------------------
  // The three searches

  /** Dijkstra's algorithm: best-first search with the zero heuristic. */
  method Dijkstra(g: Graph, s: Node, t: Node) returns (r: Result<SearchResult, SearchError>)
    requires s in g && t in g
    ensures Closed(g) ==> r.Ok?
    ensures r.Err? ==> r.error.node !in g
    ensures r.Ok? && r.value.Found? ==> Route(g, s, t, r.value.path, r.value.cost)
    ensures r.Ok? && r.value.Found? && NonNegative(g) ==> Cheapest(g, s, t, r.value.cost)
    ensures r.Ok? ==> (r.value.NoPath? <==> !Reachable(g, s, t))
  {
    r := BestFirst(g, Zero, s, t);
    if NonNegative(g) {
      NonNegativeIsConsistent(g);
    }
  }

  /** The heuristic A* is run with: the estimate from a node to the goal. */
  function ToGoal(heuristic: (Node, Node) -> real, t: Node): Node -> real
  {
    n => heuristic(n, t)
  }

  /** A*: best-first search ordered by distance plus the estimate to the goal;
      without a heuristic it raises ValueError. */
  method AStar(g: Graph, heuristic: Option<(Node, Node) -> real>, s: Node, t: Node)
    returns (r: Result<SearchResult, AgentError>)
    requires s in g && t in g
    ensures heuristic.None? <==> r == Err(HeuristicMissing)
    ensures heuristic.Some? && Closed(g) ==> r.Ok?
    ensures r.Err? && heuristic.Some? ==> r.error.KeyMissing? && r.error.key !in g
    ensures r.Ok? && r.value.Found? ==> Route(g, s, t, r.value.path, r.value.cost)
    ensures r.Ok? && r.value.Found? && Consistent(g, ToGoal(heuristic.value, t)) ==> Cheapest(g, s, t, r.value.cost)
    ensures r.Ok? ==> (r.value.NoPath? <==> !Reachable(g, s, t))
  {
    if heuristic.None? {
      return Err(HeuristicMissing);
    }
    var b := BestFirst(g, ToGoal(heuristic.value, t), s, t);
    if b.Err? {
      return Err(KeyMissing(b.error.node));
    }
    r := Ok(b.value);
  }

  /** Two cheapest routes between the same nodes cost the same: with a
      consistent heuristic A* reports the cost Dijkstra reports. */
  lemma SameOptimalCost(g: Graph, s: Node, t: Node, p1: seq<Node>, c1: real, p2: seq<Node>, c2: real)
    requires Route(g, s, t, p1, c1) && Cheapest(g, s, t, c1)
    requires Route(g, s, t, p2, c2) && Cheapest(g, s, t, c2)
    ensures c1 == c2
  {
    var w1 :| IsWalk(g, p1, w1) && Sum(w1) == c1;
    var w2 :| IsWalk(g, p2, w2) && Sum(w2) == c2;
  }

  /** The search the agent's algorithm names; an unlisted one falls back to
      Dijkstra. */
  method Search(a: Agent) returns (r: Result<SearchResult, AgentError>)
    requires Valid(a)
    ensures r.Ok? ==> (r.value.NoPath? <==> !Reachable(a.routes, a.start, a.goal))
    ensures r.Ok? && r.value.Found? ==> SearchFound(a, r.value.path, r.value.cost)
    ensures r.Err? ==> (a.algorithm.AStarSearch? && a.heuristic.None? && r.error == HeuristicMissing) ||
                       (r.error.KeyMissing? && r.error.key !in a.routes)
    ensures Closed(a.routes) && !(a.algorithm.AStarSearch? && a.heuristic.None?) ==> r.Ok?
    ensures a.algorithm.AStarSearch? && a.heuristic.None? ==> r == Err(HeuristicMissing)
  {
    match a.algorithm
    case AStarSearch =>
      r := AStar(a.routes, a.heuristic, a.start, a.goal);
    case BfsSearch =>
      var b := Bfs(a.routes, a.start, a.goal);
      r := Ok(b);
    case _ =>
      var d := Dijkstra(a.routes, a.start, a.goal);
      if d.Err? {
        return Err(KeyMissing(d.error.node));
      }
      r := Ok(d.value);
  }

  /** What a found result of the agent's search satisfies: for BFS a path
      with the fewest edges, costing its number of edges; for Dijkstra and A*
      a weighted route, cheapest when the weights are non-negative
      (Dijkstra) or the heuristic is consistent (A*). */
  ghost predicate SearchFound(a: Agent, p: seq<Node>, c: real)
  {
    match a.algorithm
    case BfsSearch =>
      IsPath(a.routes, p) && p[0] == a.start && Last(p) == a.goal && Distinct(p) && c == (|p| - 1) as real &&
      forall q :: IsPath(a.routes, q) && q[0] == a.start && Last(q) == a.goal ==> |p| <= |q|
    case AStarSearch =>
      Route(a.routes, a.start, a.goal, p, c) &&
      (a.heuristic.Some? && Consistent(a.routes, ToGoal(a.heuristic.value, a.goal)) ==> Cheapest(a.routes, a.start, a.goal, c))
    case _ =>
      Route(a.routes, a.start, a.goal, p, c) && (NonNegative(a.routes) ==> Cheapest(a.routes, a.start, a.goal, c))
  }

  // ---------------------------------------------------------------------
  // Planning

  /** plan(): the path as text joined by " -> ", or (None, inf). */
  datatype PlanResult = NoPlan | Plan(text: string, cost: real)

  method MakePlan(a: Agent) returns (r: Result<PlanResult, AgentError>)
    requires Valid(a)
    ensures r.Ok? ==> (r.value.NoPlan? <==> !Reachable(a.routes, a.start, a.goal))
    ensures r.Ok? && r.value.Plan? ==>
      exists p :: SearchFound(a, p, r.value.cost) && r.value.text == Join(p, Arrow)
    ensures r.Err? ==> (a.algorithm.AStarSearch? && a.heuristic.None? && r.error == HeuristicMissing) ||
                       (r.error.KeyMissing? && r.error.key !in a.routes)
    ensures Closed(a.routes) && !(a.algorithm.AStarSearch? && a.heuristic.None?) ==> r.Ok?
    ensures a.algorithm.AStarSearch? && a.heuristic.None? ==> r == Err(HeuristicMissing)
  {
    var s := Search(a);
    if s.Err? {
      return Err(s.error);
    }
    match s.value
    case NoPath =>
      r := Ok(NoPlan);
    case Found(path, cost) =>
      r := Ok(Plan(Join(path, Arrow), cost));
  }

  // ---------------------------------------------------------------------
  // Alternative routes

  /** Inserts c before the first entry that costs at least as much. */
  function InsertByCost(c: Candidate, cs: seq<Candidate>): (r: seq<Candidate>)
    ensures multiset(r) == multiset(cs) + multiset{c}
  {
    if |cs| == 0 || c.cost <= cs[0].cost then [c] + cs
    else
      assert cs == [cs[0]] + cs[1..];
      [cs[0]] + InsertByCost(c, cs[1..])
  }

  /** Python's stable sort by cost, as insertion sort from the back. */
  function SortByCost(cs: seq<Candidate>): (r: seq<Candidate>)
    ensures multiset(r) == multiset(cs)
  {
    if |cs| == 0 then []
    else
      assert cs == [cs[0]] + cs[1..];
      InsertByCost(cs[0], SortByCost(cs[1..]))
  }

  lemma {:induction false} InsertSorted(c: Candidate, cs: seq<Candidate>)
    requires SortedByCost(cs)
    ensures SortedByCost(InsertByCost(c, cs))
    decreases |cs|
  {
    if |cs| > 0 && c.cost > cs[0].cost {
      assert cs == [cs[0]] + cs[1..];
      InsertSorted(c, cs[1..]);
      var r := InsertByCost(c, cs[1..]);
      forall x | x in r ensures cs[0].cost <= x.cost {
        assert x in multiset(r);
        if x != c {
          var i :| 0 <= i < |cs[1..]| && cs[1..][i] == x;
          assert cs[i + 1] == x;
        }
      }
      CostSortedPrepend(cs[0], r);
    } else if |cs| > 0 {
      forall x | x in cs ensures c.cost <= x.cost {
        var i :| 0 <= i < |cs| && cs[i] == x;
        assert cs[0].cost <= cs[i].cost;
      }
      CostSortedPrepend(c, cs);
    }
  }

  lemma {:induction false} CostSortedPrepend(x: Candidate, rest: seq<Candidate>)
    requires SortedByCost(rest) && forall y :: y in rest ==> x.cost <= y.cost
    ensures SortedByCost([x] + rest)
  {
    var r := [x] + rest;
    forall i, j | 0 <= i < j < |r| ensures r[i].cost <= r[j].cost {
      assert r[j] == rest[j - 1] && rest[j - 1] in rest;
      if i > 0 { assert r[i] == rest[i - 1]; }
    }
  }

  lemma {:induction false} InsertDistinct(c: Candidate, cs: seq<Candidate>)
    requires DistinctKeys(cs) && forall x :: x in cs ==> Key(x) != Key(c)
    ensures DistinctKeys(InsertByCost(c, cs))
    decreases |cs|
  {
    if |cs| > 0 && c.cost > cs[0].cost {
      assert cs == [cs[0]] + cs[1..];
      InsertDistinct(c, cs[1..]);
      var r := InsertByCost(c, cs[1..]);
      forall x | x in r ensures Key(x) != Key(cs[0]) {
        assert x in multiset(r);
        if x != c {
          var i :| 0 <= i < |cs[1..]| && cs[1..][i] == x;
          assert cs[i + 1] == x;
        }
      }
      KeyDistinctPrepend(cs[0], r);
    } else {
      KeyDistinctPrepend(c, cs);
    }
  }

  lemma {:induction false} KeyDistinctPrepend(x: Candidate, rest: seq<Candidate>)
    requires DistinctKeys(rest) && forall y :: y in rest ==> Key(y) != Key(x)
    ensures DistinctKeys([x] + rest)
  {
    var r := [x] + rest;
    forall i, j | 0 <= i < j < |r| ensures Key(r[i]) != Key(r[j]) {
      assert r[j] == rest[j - 1] && rest[j - 1] in rest;
      if i > 0 { assert r[i] == rest[i - 1]; }
    }
  }

  /** The sorted list is ordered by cost. */
  lemma {:induction false} SortSorted(cs: seq<Candidate>)
    ensures SortedByCost(SortByCost(cs))
    decreases |cs|
  {
    if |cs| > 0 {
      SortSorted(cs[1..]);
      InsertSorted(cs[0], SortByCost(cs[1..]));
    }
  }

  /** Sorting keeps distinct keys distinct. */
  lemma {:induction false} SortDistinct(cs: seq<Candidate>)
    requires DistinctKeys(cs)
    ensures DistinctKeys(SortByCost(cs))
    decreases |cs|
  {
    if |cs| > 0 {
      var rest := SortByCost(cs[1..]);
      assert DistinctKeys(cs[1..]);
      SortDistinct(cs[1..]);
      forall x | x in rest ensures Key(x) != Key(cs[0]) {
        assert x in multiset(cs[1..]);
        var i :| 0 <= i < |cs[1..]| && cs[1..][i] == x;
        assert cs[i + 1] == x;
      }
      InsertDistinct(cs[0], rest);
    }
  }

  /** The sort is stable at the head: a first entry no other entry undercuts
      stays first. */
  lemma SortHead(cs: seq<Candidate>)
    requires |cs| > 0 && forall x :: x in cs ==> cs[0].cost <= x.cost
    ensures SortByCost(cs)[0] == cs[0]
  {
    var rest := SortByCost(cs[1..]);
    if |rest| > 0 {
      assert rest[0] in multiset(cs[1..]);
      assert rest[0] in cs;
    }
  }

  /** An alternative found with every a-to-b edge taken out is a route of
      the original map that never steps from a to b. */
  lemma EdgeAlternative(g: Graph, a: Node, b: Node, s: Node, t: Node, p: seq<Node>, c: real)
    requires Route(RemoveEdge(g, a, b), s, t, p, c)
    ensures Route(g, s, t, p, c) && AvoidsStep(p, a, b)
  {
    var ws :| IsWalk(RemoveEdge(g, a, b), p, ws) && Sum(ws) == c;
    RemoveEdgeWalks(g, a, b, p, ws);
  }

  /** An alternative found with node n cut out, n not the start, is a route of
      the original map that never visits n. */
  lemma NodeAlternative(g: Graph, n: Node, s: Node, t: Node, p: seq<Node>, c: real)
    requires s != n && Route(RemoveNode(g, n), s, t, p, c)
    ensures Route(g, s, t, p, c) && n !in p
  {
    var ws :| IsWalk(RemoveNode(g, n), p, ws) && Sum(ws) == c;
    RemoveNodeWalks(g, n, p, ws);
  }

  /** A route within the bound added at the end keeps a list of routes. */
  lemma AppendRoute(g: Graph, s: Node, t: Node, cs: seq<Candidate>, c: Candidate, maxCost: Option<real>)
    requires AllRoutes(g, s, t, cs, maxCost) && Route(g, s, t, c.path, c.cost) && WithinMax(c.cost, maxCost)
    ensures AllRoutes(g, s, t, cs + [c], maxCost)
  {
    var r := cs + [c];
    forall i | 0 <= i < |r| ensures Route(g, s, t, r[i].path, r[i].cost) && WithinMax(r[i].cost, maxCost) {
      if i < |cs| { assert r[i] == cs[i]; }
    }
  }


  /** The Dijkstra route over budget, or no route at all, leaves no walk
      within the bound. */
  lemma NothingWithin(g: Graph, s: Node, t: Node, maxCost: Option<real>, r: SearchResult)
    requires r.NoPath? ==> !Reachable(g, s, t)
    requires r.Found? ==> Cheapest(g, s, t, r.cost) && !WithinMax(r.cost, maxCost)
    ensures NoneWithin(g, s, t, maxCost)
  {
    forall p, ws | IsWalk(g, p, ws) && p[0] == s && Last(p) == t
      ensures !WithinMax(Sum(ws), maxCost)
    {
      WalkIsPath(g, p, ws);
    }
  }


  /** One Dijkstra run as find_all_paths uses it: the route, when one is
      found within the bound. */
  method Detour(h: Graph, s: Node, t: Node, maxCost: Option<real>) returns (r: Result<Option<Candidate>, SearchError>)
    requires s in h && t in h
    ensures Closed(h) ==> r.Ok?
    ensures r.Err? ==> r.error.node !in h
    ensures r.Ok? ==> DetourOf(h, s, t, maxCost, r.value)
  {
    var found := Dijkstra(h, s, t);
    if found.Err? {
      return Err(found.error);
    }
    if found.value.Found? && WithinMax(found.value.cost, maxCost) {
      return Ok(Some(Candidate(found.value.path, found.value.cost)));
    }
    if NonNegative(h) {
      NothingWithin(h, s, t, maxCost, found.value);
    }
    r := Ok(None);
  }


  /** find_all_paths: the Dijkstra route first, then the routes found with
      each of its edges removed (sorted by cost, unseen ones only), then those
      found with each interior node removed; duplicates by joined text are
      dropped and the rest sorted by cost. */
  method FindAllPaths(g: Graph, s: Node, t: Node, maxCost: Option<real>) returns (r: Result<seq<Candidate>, SearchError>)
    requires s in g && t in g
    ensures Closed(g) ==> r.Ok?
    ensures r.Err? ==> r.error.node !in g
    ensures r.Ok? ==> AlternativesWithin(g, s, t, maxCost, r.value)
  {
    var first := Detour(g, s, t, maxCost);
    if first.Err? {
      return Err(first.error);
    }
    if first.value.None? {
      return Ok([]);
    }
    ghost var ed, nd;
    r, ed, nd := Alternatives(g, s, t, first.value.value, maxCost);
  }

  /** The steps of find_all_paths after the first Dijkstra run found `best`
      within the bound. */
  method Alternatives(g: Graph, s: Node, t: Node, best: Candidate, maxCost: Option<real>)
    returns (r: Result<seq<Candidate>, SearchError>, ghost ed: seq<Option<Candidate>>, ghost nd: seq<Option<Candidate>>)
    requires s in g && t in g && DetourOf(g, s, t, maxCost, Some(best))
    ensures Closed(g) ==> r.Ok?
    ensures r.Err? ==> r.error.node !in g
    ensures r.Ok? ==> Enumerates(g, s, t, maxCost, r.value, best, ed, nd)
    ensures r.Ok? ==> AllRoutes(g, s, t, r.value, maxCost)
    ensures r.Ok? ==> SortedByCost(r.value) && DistinctKeys(r.value)
    ensures r.Ok? ==> r.value != [] && (Cheapest(g, s, t, best.cost) ==> r.value[0] == best)
  {
    var alternatives, err;
    alternatives, err, ed := EdgeAlternatives(g, s, t, best.path, maxCost, [best]);
    if err.Some? {
      return Err(MissingNode(err.value)), ed, [];
    }
    var sorted := SortByCost(alternatives);
    SortedRoutes(g, s, t, alternatives, maxCost);
    var all := AppendUnseen(g, s, t, sorted, [best], maxCost);
    assert Route(g, s, t, best.path, best.cost);
    var withNodes;
    withNodes, err, nd := NodeAlternatives(g, s, t, best.path, maxCost, all);
    if err.Some? {
      return Err(MissingNode(err.value)), ed, nd;
    }
    var unique := UniqueByKey(withNodes);
    RoutesOfSubset(g, s, t, withNodes, unique, maxCost);
    r := Ok(SortByCost(unique));
    SortedRoutes(g, s, t, unique, maxCost);
    SortedHead(g, s, t, unique, maxCost, best);
    EdgesListed(best, alternatives, ed, all, withNodes, nd, unique);
    NodesListed(all, withNodes, nd, unique);
    OnlyDetours(best, alternatives, ed, all, withNodes, nd, unique);
  }

  /** A path held by an entry of cs is listed, by joined text, after
      de-duplication and sorting. */
  lemma ListedAfter(p: seq<Node>, cs: seq<Candidate>, unique: seq<Candidate>)
    requires PathIn(p, cs)
    requires forall x :: x in cs ==> exists y :: y in unique && Key(y) == Key(x)
    ensures Listed(p, SortByCost(unique))
  {
    var j :| 0 <= j < |cs| && cs[j].path == p;
    assert cs[j] in cs;
    var y :| y in unique && Key(y) == Key(cs[j]);
    var sorted := SortByCost(unique);
    assert y in multiset(sorted);
    var k :| 0 <= k < |sorted| && sorted[k] == y;
  }

  /** A path held by an entry of a list is held by an entry of any longer
      list it begins. */
  lemma PathInPrefix(p: seq<Node>, cs: seq<Candidate>, longer: seq<Candidate>)
    requires PathIn(p, cs) && cs <= longer
    ensures PathIn(p, longer)
  {
    var j :| 0 <= j < |cs| && cs[j].path == p;
    assert longer[j] == cs[j];
  }

  /** Every edge detour within the bound is listed in the result. */
  lemma EdgesListed(best: Candidate, alts: seq<Candidate>, ed: seq<Option<Candidate>>, all: seq<Candidate>,
                    withNodes: seq<Candidate>, nd: seq<Option<Candidate>>, unique: seq<Candidate>)
    requires EdgesKept([best], alts, ed) && NodesKept(all, withNodes, nd)
    requires forall i :: 0 <= i < |SortByCost(alts)| ==> PathIn(SortByCost(alts)[i].path, all)
    requires [best] <= all
    requires forall x :: x in withNodes ==> exists y :: y in unique && Key(y) == Key(x)
    ensures forall i :: 0 <= i < |ed| && ed[i].Some? ==> Listed(ed[i].value.path, SortByCost(unique))
  {
    forall i | 0 <= i < |ed| && ed[i].Some?
      ensures Listed(ed[i].value.path, SortByCost(unique))
    {
      var v := ed[i].value;
      if v in alts {
        var sorted := SortByCost(alts);
        assert v in multiset(sorted);
        var j :| 0 <= j < |sorted| && sorted[j] == v;
        assert PathIn(v.path, all);
      } else {
        assert PathIn(v.path, [best]);
        PathInPrefix(v.path, [best], all);
      }
      PathInPrefix(v.path, all, withNodes);
      ListedAfter(v.path, withNodes, unique);
    }
  }

  /** Every node detour within the bound is listed in the result. */
  lemma NodesListed(all: seq<Candidate>, withNodes: seq<Candidate>, nd: seq<Option<Candidate>>, unique: seq<Candidate>)
    requires NodesKept(all, withNodes, nd)
    requires forall x :: x in withNodes ==> exists y :: y in unique && Key(y) == Key(x)
    ensures forall k :: 0 <= k < |nd| && nd[k].Some? ==> Listed(nd[k].value.path, SortByCost(unique))
  {
    forall k | 0 <= k < |nd| && nd[k].Some?
      ensures Listed(nd[k].value.path, SortByCost(unique))
    {
      ListedAfter(nd[k].value.path, withNodes, unique);
    }
  }

  /** The result holds best, and besides it only detours. */
  lemma OnlyDetours(best: Candidate, alts: seq<Candidate>, ed: seq<Option<Candidate>>, all: seq<Candidate>,
                    withNodes: seq<Candidate>, nd: seq<Option<Candidate>>, unique: seq<Candidate>)
    requires EdgesKept([best], alts, ed) && NodesKept(all, withNodes, nd)
    requires forall x :: x in all ==> x in [best] || x in SortByCost(alts)
    requires forall x :: x in unique ==> x in withNodes
    requires |unique| > 0 && unique[0] == best
    ensures best in SortByCost(unique)
    ensures forall x :: x in SortByCost(unique) ==> x == best || Some(x) in ed || Some(x) in nd
  {
    assert best in multiset(SortByCost(unique));
    forall x | x in SortByCost(unique) ensures x == best || Some(x) in ed || Some(x) in nd {
      assert x in multiset(unique);
      if x in all && x != best {
        assert x in multiset(SortByCost(alts));
      }
    }
  }

  /** With non-negative weights, when the map without the i-th step of the
      first route still has a walk within the bound, the list holds a
      cheapest route of that map, which never takes that step. */
  lemma EdgeDetourListed(g: Graph, s: Node, t: Node, maxCost: Option<real>, cs: seq<Candidate>, best: Candidate,
                         ed: seq<Option<Candidate>>, nd: seq<Option<Candidate>>, i: nat, p: seq<Node>, ws: seq<real>)
    requires Enumerates(g, s, t, maxCost, cs, best, ed, nd) && NonNegative(g) && i + 1 < |best.path|
    requires IsWalk(RemoveEdge(g, best.path[i], best.path[i + 1]), p, ws) && p[0] == s && Last(p) == t
    requires WithinMax(Sum(ws), maxCost)
    ensures ed[i].Some? && Listed(ed[i].value.path, cs)
    ensures Route(g, s, t, ed[i].value.path, ed[i].value.cost) && AvoidsStep(ed[i].value.path, best.path[i], best.path[i + 1])
    ensures Cheapest(RemoveEdge(g, best.path[i], best.path[i + 1]), s, t, ed[i].value.cost)
  {
    var sp := best.path;
    RemoveEdgeClosed(g, sp[i], sp[i + 1]);
    assert DetourOf(RemoveEdge(g, sp[i], sp[i + 1]), s, t, maxCost, ed[i]);
    EdgeAlternative(g, sp[i], sp[i + 1], s, t, ed[i].value.path, ed[i].value.cost);
  }

  /** With non-negative weights, when the map with the interior node
      best.path[k] cut out still has a walk within the bound, the list holds
      a cheapest route of that map, which never visits that node. */
  lemma NodeDetourListed(g: Graph, s: Node, t: Node, maxCost: Option<real>, cs: seq<Candidate>, best: Candidate,
                         ed: seq<Option<Candidate>>, nd: seq<Option<Candidate>>, k: nat, p: seq<Node>, ws: seq<real>)
    requires Enumerates(g, s, t, maxCost, cs, best, ed, nd) && NonNegative(g) && 0 < k < |best.path| - 1
    requires IsWalk(RemoveNode(g, best.path[k]), p, ws) && p[0] == s && Last(p) == t
    requires WithinMax(Sum(ws), maxCost)
    ensures nd[k - 1].Some? && Listed(nd[k - 1].value.path, cs)
    ensures Route(g, s, t, nd[k - 1].value.path, nd[k - 1].value.cost) && best.path[k] !in nd[k - 1].value.path
    ensures Cheapest(RemoveNode(g, best.path[k]), s, t, nd[k - 1].value.cost)
  {
    var sp := best.path;
    RemoveNodeClosed(g, sp[k]);
    assert DetourOf(RemoveNode(g, sp[(k - 1) + 1]), s, t, maxCost, nd[k - 1]);
    assert sp[0] != sp[k];
    NodeAlternative(g, sp[k], s, t, nd[k - 1].value.path, nd[k - 1].value.cost);
  }

  /** Every listed entry besides the first route is a route within the
      bound that skips one of its steps or avoids one of its interior
      nodes. */
  lemma ListedAreDetours(g: Graph, s: Node, t: Node, maxCost: Option<real>, cs: seq<Candidate>, best: Candidate,
                         ed: seq<Option<Candidate>>, nd: seq<Option<Candidate>>, x: Candidate)
    requires Enumerates(g, s, t, maxCost, cs, best, ed, nd) && x in cs
    ensures Route(g, s, t, x.path, x.cost) && WithinMax(x.cost, maxCost)
    ensures x == best ||
            (exists i :: 0 <= i < |best.path| - 1 && AvoidsStep(x.path, best.path[i], best.path[i + 1])) ||
            (exists k :: 0 < k < |best.path| - 1 && best.path[k] !in x.path)
  {
    var sp := best.path;
    if Some(x) in ed {
      var i :| 0 <= i < |ed| && ed[i] == Some(x);
      assert DetourOf(RemoveEdge(g, sp[i], sp[i + 1]), s, t, maxCost, ed[i]);
      EdgeAlternative(g, sp[i], sp[i + 1], s, t, x.path, x.cost);
    } else if Some(x) in nd {
      var j :| 0 <= j < |nd| && nd[j] == Some(x);
      assert DetourOf(RemoveNode(g, sp[j + 1]), s, t, maxCost, nd[j]);
      assert sp[0] != sp[j + 1];
      NodeAlternative(g, sp[j + 1], s, t, x.path, x.cost);
    }
  }

  /** Entries taken from a list of routes are routes. */
  lemma RoutesOfSubset(g: Graph, s: Node, t: Node, cs: seq<Candidate>, sub: seq<Candidate>, maxCost: Option<real>)
    requires AllRoutes(g, s, t, cs, maxCost) && forall x :: x in sub ==> x in cs
    ensures AllRoutes(g, s, t, sub, maxCost)
  {
    forall i | 0 <= i < |sub|
      ensures Route(g, s, t, sub[i].path, sub[i].cost) && WithinMax(sub[i].cost, maxCost)
    {
      assert sub[i] in cs;
      var k :| 0 <= k < |cs| && cs[k] == sub[i];
    }
  }

  /** Sorting keeps the entries, so it keeps the routes within the bound. */
  lemma SortedRoutes(g: Graph, s: Node, t: Node, cs: seq<Candidate>, maxCost: Option<real>)
    ensures AllRoutes(g, s, t, cs, maxCost) ==> AllRoutes(g, s, t, SortByCost(cs), maxCost)
    ensures SortedByCost(SortByCost(cs)) && (DistinctKeys(cs) ==> DistinctKeys(SortByCost(cs)))
  {
    SortSorted(cs);
    if DistinctKeys(cs) {
      SortDistinct(cs);
    }
    var r := SortByCost(cs);
    if AllRoutes(g, s, t, cs, maxCost) {
      forall i | 0 <= i < |r|
        ensures Route(g, s, t, r[i].path, r[i].cost) && WithinMax(r[i].cost, maxCost)
      {
        assert r[i] in multiset(cs);
        var k :| 0 <= k < |cs| && cs[k] == r[i];
      }
    }
  }

  /** Sorting a list of routes headed by best keeps it non-empty; when best
      is a cheapest route it stays at the head. */
  lemma SortedHead(g: Graph, s: Node, t: Node, cs: seq<Candidate>, maxCost: Option<real>, best: Candidate)
    requires |cs| > 0 && cs[0] == best && AllRoutes(g, s, t, cs, maxCost)
    ensures SortByCost(cs) != []
    ensures Cheapest(g, s, t, best.cost) ==> SortByCost(cs)[0] == best
  {
    assert best in multiset(SortByCost(cs));
    if Cheapest(g, s, t, best.cost) {
      forall x | x in cs ensures best.cost <= x.cost {
        var k :| 0 <= k < |cs| && cs[k] == x;
        assert Route(g, s, t, cs[k].path, cs[k].cost);
        var ws :| IsWalk(g, x.path, ws) && Sum(ws) == x.cost;
      }
      SortHead(cs);
    }
  }

  /** Appends, in order, the entries of cs whose path is not listed yet. */
  method AppendUnseen(g: Graph, s: Node, t: Node, cs: seq<Candidate>, all0: seq<Candidate>, maxCost: Option<real>)
    returns (all: seq<Candidate>)
    requires AllRoutes(g, s, t, cs, maxCost) && AllRoutes(g, s, t, all0, maxCost) && |all0| > 0
    ensures all0 <= all && AllRoutes(g, s, t, all, maxCost)
    ensures forall i :: 0 <= i < |cs| ==> PathIn(cs[i].path, all)
    ensures forall x :: x in all ==> x in all0 || x in cs
  {
    all := all0;
    var j := 0;
    while j < |cs|
      invariant 0 <= j <= |cs|
      invariant all0 <= all && AllRoutes(g, s, t, all, maxCost)
      invariant forall i :: 0 <= i < j ==> PathIn(cs[i].path, all)
      invariant forall x :: x in all ==> x in all0 || x in cs
    {
      if !PathIn(cs[j].path, all) {
        PathInGrows(all, cs[j]);
        all := all + [cs[j]];
        assert all[|all| - 1].path == cs[j].path;
      }
      j := j + 1;
    }
  }

  lemma PathInGrows(cs: seq<Candidate>, c: Candidate)
    ensures forall p :: PathIn(p, cs) ==> PathIn(p, cs + [c])
  {
    forall p | PathIn(p, cs) ensures PathIn(p, cs + [c]) {
      var i :| 0 <= i < |cs| && cs[i].path == p;
      assert (cs + [c])[i] == cs[i];
    }
  }


  lemma EdgeDetoursStep(g: Graph, s: Node, t: Node, sp: seq<Node>, maxCost: Option<real>,
                        ed: seq<Option<Candidate>>, d: Option<Candidate>)
    requires EdgeDetours(g, s, t, sp, maxCost, ed) && |ed| + 1 < |sp|
    requires DetourOf(RemoveEdge(g, sp[|ed|], sp[|ed| + 1]), s, t, maxCost, d)
    ensures EdgeDetours(g, s, t, sp, maxCost, ed + [d])
  {
    var ed' := ed + [d];
    forall j | 0 <= j < |ed'| ensures DetourOf(RemoveEdge(g, sp[j], sp[j + 1]), s, t, maxCost, ed'[j]) {
      if j < |ed| {
        assert ed'[j] == ed[j];
      } else {
        assert j == |ed| && ed'[j] == d;
      }
    }
  }

  /** The detours found so far that are within the bound are in alts or
      already in found, and alts holds only such detours. */
  predicate EdgesKept(found: seq<Candidate>, alts: seq<Candidate>, ed: seq<Option<Candidate>>)
  {
    (forall j :: 0 <= j < |ed| && ed[j].Some? ==> ed[j].value in alts || PathIn(ed[j].value.path, found)) &&
    (forall x :: x in alts ==> !PathIn(x.path, found) && Some(x) in ed)
  }

  lemma EdgesKeptStep(found: seq<Candidate>, alts: seq<Candidate>, ed: seq<Option<Candidate>>, d: Option<Candidate>)
    requires EdgesKept(found, alts, ed)
    ensures EdgesKept(found, if d.Some? && !PathIn(d.value.path, found) then alts + [d.value] else alts, ed + [d])
  {
    var ed' := ed + [d];
    var alts' := if d.Some? && !PathIn(d.value.path, found) then alts + [d.value] else alts;
    forall j | 0 <= j < |ed'| && ed'[j].Some? ensures ed'[j].value in alts' || PathIn(ed'[j].value.path, found) {
      if j < |ed| {
        assert ed'[j] == ed[j];
      }
    }
    forall x | x in alts' ensures !PathIn(x.path, found) && Some(x) in ed' {
      if x in alts {
        assert Some(x) in ed;
      }
    }
  }

  /** For each step of the shortest path sp: Dijkstra on the map without
      that step (ed records each run), keeping a route within the bound whose
      path is not in found. */
  method EdgeAlternatives(g: Graph, s: Node, t: Node, sp: seq<Node>, maxCost: Option<real>, found: seq<Candidate>)
    returns (alts: seq<Candidate>, err: Option<Node>, ghost ed: seq<Option<Candidate>>)
    requires s in g && t in g && |sp| >= 1
    ensures err.Some? ==> err.value !in g && !Closed(g)
    ensures err.None? ==> |ed| == |sp| - 1 && EdgeDetours(g, s, t, sp, maxCost, ed)
    ensures err.None? ==> EdgesKept(found, alts, ed) && AllRoutes(g, s, t, alts, maxCost)
  {
    alts, err, ed := [], None, [];
    var i := 0;
    while i + 1 < |sp|
      invariant |ed| == i && EdgeDetours(g, s, t, sp, maxCost, ed)
      invariant EdgesKept(found, alts, ed) && AllRoutes(g, s, t, alts, maxCost)
    {
      var alt := Detour(RemoveEdge(g, sp[i], sp[i + 1]), s, t, maxCost);
      if alt.Err? {
        if Closed(g) {
          RemoveEdgeClosed(g, sp[i], sp[i + 1]);
        }
        return alts, Some(alt.error.node), ed;
      }
      EdgeDetoursStep(g, s, t, sp, maxCost, ed, alt.value);
      EdgesKeptStep(found, alts, ed, alt.value);
      if alt.value.Some? && !PathIn(alt.value.value.path, found) {
        var c := alt.value.value;
        EdgeAlternative(g, sp[i], sp[i + 1], s, t, c.path, c.cost);
        AppendRoute(g, s, t, alts, c, maxCost);
        alts := alts + [c];
      }
      ed := ed + [alt.value];
      i := i + 1;
    }
  }


  lemma NodeDetoursStep(g: Graph, s: Node, t: Node, sp: seq<Node>, maxCost: Option<real>,
                        nd: seq<Option<Candidate>>, d: Option<Candidate>)
    requires NodeDetours(g, s, t, sp, maxCost, nd) && |nd| + 2 < |sp|
    requires DetourOf(RemoveNode(g, sp[|nd| + 1]), s, t, maxCost, d)
    ensures NodeDetours(g, s, t, sp, maxCost, nd + [d])
  {
    var nd' := nd + [d];
    forall j | 0 <= j < |nd'| ensures DetourOf(RemoveNode(g, sp[j + 1]), s, t, maxCost, nd'[j]) {
      if j < |nd| {
        assert nd'[j] == nd[j];
      } else {
        assert j == |nd| && nd'[j] == d;
      }
    }
  }

  /** all begins with found, every detour found so far within the bound is
      in all, and all holds besides found only such detours. */
  predicate NodesKept(found: seq<Candidate>, all: seq<Candidate>, nd: seq<Option<Candidate>>)
  {
    found <= all &&
    (forall j :: 0 <= j < |nd| && nd[j].Some? ==> PathIn(nd[j].value.path, all)) &&
    (forall x :: x in all ==> x in found || Some(x) in nd)
  }

  lemma NodesKeptStep(found: seq<Candidate>, all: seq<Candidate>, nd: seq<Option<Candidate>>, d: Option<Candidate>)
    requires NodesKept(found, all, nd)
    ensures NodesKept(found, if d.Some? && !PathIn(d.value.path, all) then all + [d.value] else all, nd + [d])
  {
    var nd' := nd + [d];
    var all' := if d.Some? && !PathIn(d.value.path, all) then all + [d.value] else all;
    if d.Some? && !PathIn(d.value.path, all) {
      PathInGrows(all, d.value);
      assert all'[|all|].path == d.value.path;
    }
    forall j | 0 <= j < |nd'| && nd'[j].Some? ensures PathIn(nd'[j].value.path, all') {
      if j < |nd| {
        assert nd'[j] == nd[j];
      }
    }
    forall x | x in all' ensures x in found || Some(x) in nd' {
      if x in all {
        assert x in found || Some(x) in nd;
      }
    }
  }

  /** For each interior node of sp: Dijkstra on the map with that node cut
      out (nd records each run), appending a route within the bound whose
      path is not listed yet. */
  method NodeAlternatives(g: Graph, s: Node, t: Node, sp: seq<Node>, maxCost: Option<real>, found: seq<Candidate>)
    returns (all: seq<Candidate>, err: Option<Node>, ghost nd: seq<Option<Candidate>>)
    requires s in g && t in g && |sp| >= 1 && sp[0] == s && Distinct(sp)
    requires |found| > 0 && AllRoutes(g, s, t, found, maxCost)
    ensures err.Some? ==> err.value !in g && !Closed(g)
    ensures err.None? ==> |nd| == (if |sp| < 2 then 0 else |sp| - 2) && NodeDetours(g, s, t, sp, maxCost, nd)
    ensures err.None? ==> NodesKept(found, all, nd) && AllRoutes(g, s, t, all, maxCost)
  {
    all, err, nd := found, None, [];
    var k := 1;
    while k + 1 < |sp|
      invariant 1 <= k && |nd| == k - 1 && NodeDetours(g, s, t, sp, maxCost, nd)
      invariant NodesKept(found, all, nd) && AllRoutes(g, s, t, all, maxCost)
    {
      var n := sp[k];
      var alt := Detour(RemoveNode(g, n), s, t, maxCost);
      if alt.Err? {
        if Closed(g) {
          RemoveNodeClosed(g, n);
        }
        return all, Some(alt.error.node), nd;
      }
      NodeDetoursStep(g, s, t, sp, maxCost, nd, alt.value);
      NodesKeptStep(found, all, nd, alt.value);
      if alt.value.Some? && !PathIn(alt.value.value.path, all) {
        var c := alt.value.value;
        assert sp[0] != n;
        NodeAlternative(g, n, s, t, c.path, c.cost);
        AppendRoute(g, s, t, all, c, maxCost);
        all := all + [c];
      }
      nd := nd + [alt.value];
      k := k + 1;
    }
  }

  /** Keeps the first entry for each joined text, in order. */
  method UniqueByKey(cs: seq<Candidate>) returns (r: seq<Candidate>)
    ensures DistinctKeys(r)
    ensures forall x :: x in r ==> x in cs
    ensures forall x :: x in cs ==> exists y :: y in r && Key(y) == Key(x)
    ensures |cs| > 0 ==> |r| > 0 && r[0] == cs[0]
  {
    r := [];
    var seen: set<string> := {};
    var j := 0;
    while j < |cs|
      invariant 0 <= j <= |cs|
      invariant DistinctKeys(r)
      invariant forall x :: x in r ==> x in cs
      invariant forall k :: k in seen <==> exists y :: y in r && Key(y) == k
      invariant forall i :: 0 <= i < j ==> Key(cs[i]) in seen
      invariant j == 0 ==> r == [] && seen == {}
      invariant j > 0 ==> |r| > 0 && r[0] == cs[0]
    {
      var k := Key(cs[j]);
      if k !in seen {
        r := r + [cs[j]];
        seen := seen + {k};
      }
      j := j + 1;
    }
  }

  // ---------------------------------------------------------------------
  // Path details

  /** The dictionary get_path_details returns; a bestCost of None stands for
      infinity, and message is only set on failure. */
  datatype Details = Details(bestPath: seq<Node>, bestCost: Option<real>, alternatives: seq<Candidate>,
                             start: Node, goal: Node, algorithm: Algorithm, success: bool,
                             message: Option<string>)

  /** The message of a failed search from start to goal. */
  function NoPathMessage(start: Node, goal: Node): string
  {
    "No path found from " + start + " to " + goal
  }

  /** The node list read back from a plan's text is the planned path whenever
      the names are safe, except that the path [""] reads back as []. */
  ghost predicate ReadsBack(p: seq<Node>, best: seq<Node>)
  {
    (forall i :: 0 <= i < |p| ==> SafeName(p[i])) ==> best == (if p == [""] then [] else p)
  }

  /** The text a plan's path is read back from by get_path_details. */
  function ReadPlanText(text: string): seq<Node>
  {
    if text == "" then [] else Split(text, Arrow)
  }

  lemma PlanTextReadsBack(p: seq<Node>)
    requires |p| >= 1
    ensures ReadsBack(p, ReadPlanText(Join(p, Arrow)))
  {
    if forall i :: 0 <= i < |p| ==> SafeName(p[i]) {
      if Join(p, Arrow) == "" {
        JoinEmpty(p);
      } else if p != [""] {
        SplitJoin(p);
      }
    }
  }

  /** get_path_details: the plan read back into a node list, with the
      Dijkstra alternatives up to twice the plan's cost. */
  method PathDetails(a: Agent) returns (r: Result<Details, AgentError>)
    requires Valid(a)
    ensures r.Ok? ==> r.value.start == a.start && r.value.goal == a.goal && r.value.algorithm == a.algorithm
    ensures r.Ok? ==> (r.value.success <==> Reachable(a.routes, a.start, a.goal))
    ensures r.Ok? && !r.value.success ==>
      r.value.bestPath == [] && r.value.bestCost.None? && r.value.alternatives == [] &&
      r.value.message == Some(NoPathMessage(a.start, a.goal))
    ensures r.Ok? && r.value.success ==>
      r.value.bestCost.Some? && r.value.message.None? &&
      (exists p :: SearchFound(a, p, r.value.bestCost.value) && ReadsBack(p, r.value.bestPath))
    ensures r.Ok? && r.value.success ==>
      exists c :: r.value.bestCost == Some(c) && AlternativesWithin(a.routes, a.start, a.goal, Some(c * 2.0), r.value.alternatives)
    ensures r.Err? ==> (a.algorithm.AStarSearch? && a.heuristic.None? && r.error == HeuristicMissing) ||
                       (r.error.KeyMissing? && r.error.key !in a.routes)
    ensures Closed(a.routes) && !(a.algorithm.AStarSearch? && a.heuristic.None?) ==> r.Ok?
  {
    var plan := MakePlan(a);
    if plan.Err? {
      return Err(plan.error);
    }
    if plan.value.NoPlan? {
      return Ok(Details([], None, [], a.start, a.goal, a.algorithm, false,
                        Some(NoPathMessage(a.start, a.goal))));
    }
    ghost var p :| SearchFound(a, p, plan.value.cost) && plan.value.text == Join(p, Arrow);
    r := FoundDetails(a, plan.value.text, plan.value.cost, p);
  }

  /** The dictionary get_path_details returns for a plan of cost `cost`
      whose path text is `text`: the path read back into a node list, and
      the alternatives find_all_paths lists up to twice that cost. */
  method FoundDetails(a: Agent, text: string, cost: real, ghost p: seq<Node>) returns (r: Result<Details, AgentError>)
    requires Valid(a)
    requires SearchFound(a, p, cost) && text == Join(p, Arrow)
    ensures r.Ok? ==> r.value.start == a.start && r.value.goal == a.goal && r.value.algorithm == a.algorithm
    ensures r.Ok? ==> r.value.success && r.value.bestCost == Some(cost) && r.value.message.None?
    ensures r.Ok? ==> exists p :: SearchFound(a, p, r.value.bestCost.value) && ReadsBack(p, r.value.bestPath)
    ensures r.Ok? ==> AlternativesWithin(a.routes, a.start, a.goal, Some(cost * 2.0), r.value.alternatives)
    ensures r.Err? ==> r.error.KeyMissing? && r.error.key !in a.routes
    ensures Closed(a.routes) ==> r.Ok?
  {
    var best := ReadPlanText(text);
    PlanTextReadsBack(p);
    var all := FindAllPaths(a.routes, a.start, a.goal, Some(cost * 2.0));
    if all.Err? {
      return Err(KeyMissing(all.error.node));
    }
    r := Ok(Details(best, Some(cost), all.value, a.start, a.goal, a.algorithm, true, None));
  }

  // ---------------------------------------------------------------------
  // The demonstration map

  /** The route map of the module's demonstration, planned from A to F. */
  function DemoRoutes(): Graph
  {
    map["A" := [Edge("B", 3.0), Edge("C", 5.0), Edge("E", 10.0)],
        "B" := [Edge("D", 4.0), Edge("E", 2.0)],
        "C" := [Edge("D", 2.0)],
        "D" := [Edge("F", 3.0)],
        "E" := [Edge("F", 1.0)],
        "F" := []]
  }

  /** The exact cost from each node of the demonstration map to F. */
  function DemoToF(n: Node): real
  {
    if n == "A" then 6.0
    else if n == "B" || n == "D" then 3.0
    else if n == "C" then 5.0
    else if n == "E" then 1.0
    else 0.0
  }

  /** Every edge of the demonstration map leads to a key, weighs at least
      nothing and drops DemoToF by at most its weight. */
  lemma DemoFacts()
    ensures Closed(DemoRoutes()) && NonNegative(DemoRoutes()) && Consistent(DemoRoutes(), DemoToF)
  {
    var g := DemoRoutes();
    forall u: Node, e: Edge | u in g && e in g[u]
      ensures e.dest in g && e.weight >= 0.0 && DemoToF(u) <= e.weight + DemoToF(e.dest)
    {
      DemoEdge(u, e);
    }
  }

  lemma DemoEdge(u: Node, e: Edge)
    requires u in DemoRoutes() && e in DemoRoutes()[u]
    ensures e.dest in DemoRoutes() && e.weight >= 0.0 && DemoToF(u) <= e.weight + DemoToF(e.dest)
  {
    if u == "A" {
      assert e == Edge("B", 3.0) || e == Edge("C", 5.0) || e == Edge("E", 10.0);
    } else if u == "B" {
      assert e == Edge("D", 4.0) || e == Edge("E", 2.0);
    } else if u == "C" {
      assert e == Edge("D", 2.0);
    } else if u == "D" {
      assert e == Edge("F", 3.0);
    } else if u == "E" {
      assert e == Edge("F", 1.0);
    } else {
      assert false;
    }
  }

  /** A walk that costs exactly the drop of a consistent h along it uses
      only edges whose weight equals the drop of h across them. */
  lemma {:induction false} TightWalk(g: Graph, h: Node -> real, p: seq<Node>, ws: seq<real>)
    requires IsWalk(g, p, ws) && Consistent(g, h) && Sum(ws) == h(p[0]) - h(Last(p))
    ensures forall i :: 0 <= i < |ws| ==> ws[i] == h(p[i]) - h(p[i + 1])
    decreases |p|
  {
    if |p| > 1 {
      var n := |p| - 1;
      WalkSplit(g, p, ws, n - 1);
      assert ws[..n - 1] == ws[..|ws| - 1];
      WalkCostBound(g, h, p[..n], ws[..n - 1]);
      assert HasEdge(g, p[n - 1], p[n], ws[n - 1]);
      assert Sum(ws) == Sum(ws[..n - 1]) + ws[n - 1];
      TightWalk(g, h, p[..n], ws[..n - 1]);
      forall i | 0 <= i < |ws| ensures ws[i] == h(p[i]) - h(p[i + 1]) {
        if i < n - 1 {
          assert ws[..n - 1][i] == ws[i] && p[..n][i] == p[i] && p[..n][i + 1] == p[i + 1];
        }
      }
    }
  }

  /** On the demonstration map the only walk from A to F along tight edges
      is A, B, E, F. */
  lemma DemoTightWalk(p: seq<Node>, ws: seq<real>)
    requires IsWalk(DemoRoutes(), p, ws) && p[0] == "A" && Last(p) == "F"
    requires forall i :: 0 <= i < |ws| ==> ws[i] == DemoToF(p[i]) - DemoToF(p[i + 1])
    ensures p == ["A", "B", "E", "F"]
  {
    var g := DemoRoutes();
    assert |p| >= 2;
    assert HasEdge(g, p[0], p[1], ws[0]);
    assert p[1] == "B";
    assert |p| >= 3;
    assert HasEdge(g, p[1], p[2], ws[1]);
    assert p[2] == "E";
    assert |p| >= 4;
    assert HasEdge(g, p[2], p[3], ws[2]);
    assert p[3] == "F";
    DemoDeadEnd(p, ws);
    assert |p| == 4;
  }

  /** F has no outgoing edge, so a walk never leaves it. */
  lemma DemoDeadEnd(p: seq<Node>, ws: seq<real>)
    requires IsWalk(DemoRoutes(), p, ws)
    ensures forall i :: 0 <= i < |ws| ==> p[i] != "F"
  {
    forall i | 0 <= i < |ws| ensures p[i] != "F" {
      assert HasEdge(DemoRoutes(), p[i], p[i + 1], ws[i]);
    }
  }

  /** A, B, E, F is a walk of the demonstration map costing 6. */
  lemma DemoBestWalk()
    ensures IsWalk(DemoRoutes(), ["A", "B", "E", "F"], [3.0, 2.0, 1.0])
    ensures Sum([3.0, 2.0, 1.0]) == 6.0
  {
    var g := DemoRoutes();
    assert Edge("B", 3.0) in g["A"];
    assert Edge("E", 2.0) in g["B"];
    assert Edge("F", 1.0) in g["E"];
    assert [3.0, 2.0, 1.0][..2] == [3.0, 2.0];
    assert [3.0, 2.0][..1] == [3.0];
  }

  /** The cheapest route from A to F on the demonstration map is A, B, E, F
      at cost 6, and no other route is cheapest. */
  lemma DemoCheapest(p: seq<Node>, c: real)
    requires Route(DemoRoutes(), "A", "F", p, c) && Cheapest(DemoRoutes(), "A", "F", c)
    ensures p == ["A", "B", "E", "F"] && c == 6.0
  {
    DemoFacts();
    DemoBestWalk();
    var ws :| IsWalk(DemoRoutes(), p, ws) && Sum(ws) == c;
    assert c <= 6.0 by {
      assert IsWalk(DemoRoutes(), ["A", "B", "E", "F"], [3.0, 2.0, 1.0]);
    }
    WalkCostBound(DemoRoutes(), DemoToF, p, ws);
    DemoEnds();
    assert p[0] == "A" && Last(p) == "F";
    assert c == 6.0;
    TightWalk(DemoRoutes(), DemoToF, p, ws);
    DemoTightWalk(p, ws);
  }

  lemma DemoEnds()
    ensures DemoToF("A") == 6.0 && DemoToF("F") == 0.0
  {
  }

  /** plan() on the demonstration map with the default Dijkstra search. */
  method DemoPlan() returns (r: Result<PlanResult, AgentError>)
    ensures r == Ok(Plan("A -> B -> E -> F", 6.0))
  {
    var a := Agent(DemoRoutes(), "A", "F", None, DijkstraSearch);
    DemoFacts();
    DemoBestWalk();
    WalkIsPath(a.routes, ["A", "B", "E", "F"], [3.0, 2.0, 1.0]);
    assert Reachable(a.routes, a.start, a.goal);
    r := MakePlan(a);
    ghost var p :| SearchFound(a, p, r.value.cost) && r.value.text == Join(p, Arrow);
    assert Route(a.routes, a.start, a.goal, p, r.value.cost) && Cheapest(a.routes, a.start, a.goal, r.value.cost);
    DemoCheapest(p, r.value.cost);
    DemoJoin();
  }

  lemma DemoJoin()
    ensures Join(["A", "B", "E", "F"], Arrow) == "A -> B -> E -> F"
  {
    assert Join(["E", "F"], Arrow) == "E -> F";
    assert Join(["B", "E", "F"], Arrow) == "B -> E -> F";
  }
}

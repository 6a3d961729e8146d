/** Weighted directed route maps, as the goal-based agent receives them: each
    node maps to its list of (destination, cost) pairs, in order. Walks carry
    the weight of the edge taken at each step, so parallel edges are allowed. */
module Graph {

  type Node = string

  datatype Edge = Edge(dest: Node, weight: real)

  type Graph = map<Node, seq<Edge>>

  function Last<T>(s: seq<T>): T
    requires |s| > 0
  {
    s[|s| - 1]
  }

  /** Sum of a list of weights, added left to right. */
  function Sum(ws: seq<real>): real
  {
    if |ws| == 0 then 0.0 else Sum(ws[..|ws| - 1]) + ws[|ws| - 1]
  }

  lemma {:induction false} SumAppend(a: seq<real>, b: seq<real>)
    ensures Sum(a + b) == Sum(a) + Sum(b)
    decreases |b|
  {
    if |b| == 0 {
      assert a + b == a;
    } else {
      assert (a + b)[..|a + b| - 1] == a + b[..|b| - 1];
      SumAppend(a, b[..|b| - 1]);
    }
  }

  predicate HasEdge(g: Graph, u: Node, v: Node, w: real)
  {
    u in g && Edge(v, w) in g[u]
  }

  /** p is a walk through g and ws[i] is the weight of an edge from p[i] to p[i + 1]. */
  predicate IsWalk(g: Graph, p: seq<Node>, ws: seq<real>)
  {
    |p| >= 1 && |ws| == |p| - 1 &&
    forall i :: 0 <= i < |ws| ==> HasEdge(g, p[i], p[i + 1], ws[i])
  }

  /** Some edge leads from u to v. */
  predicate Step(g: Graph, u: Node, v: Node)
  {
    u in g && exists i :: 0 <= i < |g[u]| && g[u][i].dest == v
  }

  /** p follows edges of g, weights ignored. */
  predicate IsPath(g: Graph, p: seq<Node>)
  {
    |p| >= 1 && forall i :: 0 <= i < |p| - 1 ==> Step(g, p[i], p[i + 1])
  }

  ghost predicate Reachable(g: Graph, s: Node, t: Node)
  {
    exists p :: IsPath(g, p) && p[0] == s && Last(p) == t
  }

  predicate Distinct<T(==)>(p: seq<T>)
  {
    forall i, j :: 0 <= i < j < |p| ==> p[i] != p[j]
  }

  /** Every edge target is a key, so looking a target up never fails. */
  predicate Closed(g: Graph)
  {
    forall u, e :: u in g && e in g[u] ==> e.dest in g
  }

  predicate NonNegative(g: Graph)
  {
    forall u, e :: u in g && e in g[u] ==> e.weight >= 0.0
  }

  /** h never drops by more than the weight of an edge. */
  ghost predicate Consistent(g: Graph, h: Node -> real)
  {
    forall u, e :: u in g && e in g[u] ==> h(u) <= e.weight + h(e.dest)
  }

  function Zero(n: Node): real
  {
    0.0
  }

  lemma NonNegativeIsConsistent(g: Graph)
    requires NonNegative(g)
    ensures Consistent(g, Zero)
  {
  }

  lemma WalkIsPath(g: Graph, p: seq<Node>, ws: seq<real>)
    requires IsWalk(g, p, ws)
    ensures IsPath(g, p)
  {
    forall i | 0 <= i < |p| - 1
      ensures Step(g, p[i], p[i + 1])
    {
      assert HasEdge(g, p[i], p[i + 1], ws[i]);
      var k :| 0 <= k < |g[p[i]]| && g[p[i]][k] == Edge(p[i + 1], ws[i]);
    }
  }

  ghost function StepWeight(g: Graph, u: Node, v: Node): (w: real)
    requires Step(g, u, v)
    ensures HasEdge(g, u, v, w)
  {
    var i :| 0 <= i < |g[u]| && g[u][i].dest == v;
    assert g[u][i] == Edge(v, g[u][i].weight);
    g[u][i].weight
  }

  /** Every path can be given the weights of the edges it follows. */
  lemma PathHasWeights(g: Graph, p: seq<Node>) returns (ws: seq<real>)
    requires IsPath(g, p)
    ensures IsWalk(g, p, ws)
  {
    ws := seq(|p| - 1, i requires 0 <= i < |p| - 1 => StepWeight(g, p[i], p[i + 1]));
    forall i | 0 <= i < |ws|
      ensures HasEdge(g, p[i], p[i + 1], ws[i])
    {
      assert ws[i] == StepWeight(g, p[i], p[i + 1]);
    }
  }

  /** Cutting a walk at position i gives two walks whose costs add up. */
  lemma WalkSplit(g: Graph, p: seq<Node>, ws: seq<real>, i: nat)
    requires IsWalk(g, p, ws) && i < |p|
    ensures IsWalk(g, p[..i + 1], ws[..i])
    ensures IsWalk(g, p[i..], ws[i..])
    ensures Sum(ws) == Sum(ws[..i]) + Sum(ws[i..])
  {
    assert ws == ws[..i] + ws[i..];
    SumAppend(ws[..i], ws[i..]);
    var q, vs := p[i..], ws[i..];
    forall k | 0 <= k < |vs|
      ensures HasEdge(g, q[k], q[k + 1], vs[k])
    {
      assert q[k] == p[i + k] && q[k + 1] == p[i + k + 1] && vs[k] == ws[i + k];
    }
  }

  /** For a consistent h, a walk costs at least the drop of h along it. */
  lemma {:induction false} WalkCostBound(g: Graph, h: Node -> real, p: seq<Node>, ws: seq<real>)
    requires IsWalk(g, p, ws) && Consistent(g, h)
    ensures Sum(ws) >= h(p[0]) - h(Last(p))
    decreases |p|
  {
    if |p| > 1 {
      var n := |p| - 1;
      WalkSplit(g, p, ws, n - 1);
      assert ws[..n - 1] == ws[..|ws| - 1];
      WalkCostBound(g, h, p[..n], ws[..n - 1]);
      assert HasEdge(g, p[n - 1], p[n], ws[n - 1]);
      assert h(p[n - 1]) <= ws[n - 1] + h(p[n]);
    }
  }

  /** When d grows by ws[i] from p[i] to p[i + 1], the weights sum to the growth of d. */
  lemma {:induction false} Telescope(p: seq<Node>, ws: seq<real>, d: map<Node, real>)
    requires |p| >= 1 && |ws| == |p| - 1
    requires forall i :: 0 <= i < |p| ==> p[i] in d
    requires forall i :: 0 <= i < |ws| ==> d[p[i + 1]] == d[p[i]] + ws[i]
    ensures Sum(ws) == d[Last(p)] - d[p[0]]
    decreases |p|
  {
    if |p| > 1 {
      var n := |p| - 1;
      Telescope(p[..n], ws[..n - 1], d);
      assert d[p[n]] == d[p[n - 1]] + ws[n - 1];
    }
  }

  /** A set that contains s and every target of its members' edges contains
      every node reachable from s. */
  lemma ReachInClosedSet(g: Graph, S: set<Node>, s: Node, t: Node)
    requires s in S
    requires forall u, e :: u in S && u in g && e in g[u] ==> e.dest in S
    requires Reachable(g, s, t)
    ensures t in S
  {
    var p :| IsPath(g, p) && p[0] == s && Last(p) == t;
    var i := 0;
    while i < |p| - 1
      invariant 0 <= i < |p|
      invariant p[i] in S
    {
      assert Step(g, p[i], p[i + 1]);
      var k :| 0 <= k < |g[p[i]]| && g[p[i]][k].dest == p[i + 1];
      assert g[p[i]][k] in g[p[i]];
      i := i + 1;
    }
  }

  /** The edges of es not leading to b, in order. */
  function WithoutDest(es: seq<Edge>, b: Node): (r: seq<Edge>)
    ensures forall e :: e in r <==> e in es && e.dest != b
  {
    if |es| == 0 then []
    else (if es[0].dest == b then [] else [es[0]]) + WithoutDest(es[1..], b)
  }

  /** The route map with every edge from a to b dropped. */
  function RemoveEdge(g: Graph, a: Node, b: Node): (r: Graph)
    ensures r.Keys == g.Keys
  {
    map u | u in g :: if u == a then WithoutDest(g[u], b) else g[u]
  }

  /** The route map with every edge into or out of n dropped; n stays a key. */
  function RemoveNode(g: Graph, n: Node): (r: Graph)
    ensures r.Keys == g.Keys
  {
    map u | u in g :: if u == n then [] else WithoutDest(g[u], n)
  }

  predicate AvoidsStep(p: seq<Node>, a: Node, b: Node)
  {
    forall i :: 0 <= i < |p| - 1 ==> !(p[i] == a && p[i + 1] == b)
  }

  /** The walks of RemoveEdge(g, a, b) are exactly the walks of g that never
      step from a to b. */
  lemma RemoveEdgeWalks(g: Graph, a: Node, b: Node, p: seq<Node>, ws: seq<real>)
    ensures IsWalk(RemoveEdge(g, a, b), p, ws) <==> IsWalk(g, p, ws) && AvoidsStep(p, a, b)
  {
    var r := RemoveEdge(g, a, b);
    if IsWalk(r, p, ws) {
      forall i | 0 <= i < |ws|
        ensures HasEdge(g, p[i], p[i + 1], ws[i]) && !(p[i] == a && p[i + 1] == b)
      {
        assert HasEdge(r, p[i], p[i + 1], ws[i]);
      }
    }
    if IsWalk(g, p, ws) && AvoidsStep(p, a, b) {
      forall i | 0 <= i < |ws|
        ensures HasEdge(r, p[i], p[i + 1], ws[i])
      {
        assert HasEdge(g, p[i], p[i + 1], ws[i]);
      }
    }
  }

  /** The walks of RemoveNode(g, n) that do not start at n are exactly the
      walks of g that never visit n. */
  lemma RemoveNodeWalks(g: Graph, n: Node, p: seq<Node>, ws: seq<real>)
    requires |p| >= 1 && p[0] != n
    ensures IsWalk(RemoveNode(g, n), p, ws) <==> IsWalk(g, p, ws) && n !in p
  {
    var r := RemoveNode(g, n);
    if IsWalk(r, p, ws) {
      forall i | 0 <= i < |ws|
        ensures HasEdge(g, p[i], p[i + 1], ws[i])
      {
        assert HasEdge(r, p[i], p[i + 1], ws[i]);
      }
      forall i | 0 <= i < |p|
        ensures p[i] != n
      {
        if i > 0 {
          assert HasEdge(r, p[i - 1], p[i], ws[i - 1]);
        }
      }
    }
    if IsWalk(g, p, ws) && n !in p {
      forall i | 0 <= i < |ws|
        ensures HasEdge(r, p[i], p[i + 1], ws[i])
      {
        assert HasEdge(g, p[i], p[i + 1], ws[i]);
        assert p[i] != n && p[i + 1] != n;
      }
    }
  }

  /** Dropping edges keeps a graph closed and its weights non-negative. */
  lemma RemoveEdgeClosed(g: Graph, a: Node, b: Node)
    ensures Closed(g) ==> Closed(RemoveEdge(g, a, b))
    ensures NonNegative(g) ==> NonNegative(RemoveEdge(g, a, b))
  {
  }

  lemma RemoveNodeClosed(g: Graph, n: Node)
    ensures Closed(g) ==> Closed(RemoveNode(g, n))
    ensures NonNegative(g) ==> NonNegative(RemoveNode(g, n))
  {
  }
}

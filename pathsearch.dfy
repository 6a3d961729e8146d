/** The three searches of the goal-based agent over a route map: a best-first
    search with lazy deletion that is Dijkstra's algorithm for the zero
    heuristic and A* for a caller's heuristic, unit-cost breadth-first search,
    and the back-pointer walk that turns a `previous` map into a path. */
module PathSearch {
  import opened Wrappers
  import opened Text
  import opened Graph

  /** A heap entry: Python pushes (key, node) tuples. */
  datatype Entry = Entry(key: real, node: Node)

  /** Python's (path, cost) pair, or (None, inf) for NoPath. */
  datatype SearchResult = NoPath | Found(path: seq<Node>, cost: real)

  /** The distance table is looked up at a node that is not a key of the
      routes: the KeyError of the Python code. */
  datatype SearchError = MissingNode(node: Node)

  // ---------------------------------------------------------------------
  // The heap

  /** Python's tuple order on heap entries: by key, then by node name. */
  predicate EntryBefore(a: Entry, b: Entry)
  {
    a.key < b.key || (a.key == b.key && StrLess(a.node, b.node))
  }

  predicate EntryAtMost(a: Entry, b: Entry)
  {
    a == b || EntryBefore(a, b)
  }

  lemma EntryOrderTransitive(a: Entry, b: Entry, c: Entry)
    requires EntryAtMost(a, b) && EntryAtMost(b, c)
    ensures EntryAtMost(a, c)
  {
    if a != b && b != c && a.key == b.key && b.key == c.key {
      StrLessTransitive(a.node, b.node, c.node);
    }
  }

  lemma EntryOrderTotal(a: Entry, b: Entry)
    requires !EntryBefore(a, b)
    ensures EntryAtMost(b, a)
  {
    if a.key == b.key && a.node != b.node {
      StrLessTotal(a.node, b.node);
    }
  }

  /** Index of the entry heappop returns: the least one in tuple order. */
  method PopIndex(q: seq<Entry>) returns (m: nat)
    requires |q| > 0
    ensures m < |q|
    ensures forall j :: 0 <= j < |q| ==> EntryAtMost(q[m], q[j])
  {
    m := 0;
    var i := 1;
    while i < |q|
      invariant m < i <= |q|
      invariant forall j :: 0 <= j < i ==> EntryAtMost(q[m], q[j])
    {
      if EntryBefore(q[i], q[m]) {
        forall j | 0 <= j < i
          ensures EntryAtMost(q[i], q[j])
        {
          EntryOrderTransitive(q[i], q[m], q[j]);
        }
        m := i;
      } else {
        EntryOrderTotal(q[i], q[m]);
      }
      i := i + 1;
    }
  }

  /** The least entry has the least key. */
  lemma PoppedKeyIsLeast(q: seq<Entry>, m: nat)
    requires m < |q| && forall j :: 0 <= j < |q| ==> EntryAtMost(q[m], q[j])
    ensures forall j :: 0 <= j < |q| ==> q[m].key <= q[j].key
  {
  }

  function RemoveAt<T>(q: seq<T>, m: nat): (r: seq<T>)
    requires m < |q|
    ensures |r| == |q| - 1
    ensures forall j :: 0 <= j < |q| && j != m ==> q[j] in r
    ensures forall x :: x in r ==> x in q
  {
    assert forall j :: m < j < |q| ==> q[j] == q[m + 1..][j - m - 1];
    q[..m] + q[m + 1..]
  }

  // ---------------------------------------------------------------------
  // Path reconstruction

  /** p is what walking back from t along prev and reversing gives: it ends
      at t, each node is the recorded predecessor of the next, and the first
      node has no predecessor. */
  predicate BackChain(prev: map<Node, Node>, t: Node, p: seq<Node>)
  {
    |p| >= 1 && Last(p) == t && p[0] !in prev &&
    forall k :: 1 <= k < |p| ==> p[k] in prev && prev[p[k]] == p[k - 1]
  }

  /** Ranked nodes have ranked predecessors of smaller rank, and t is ranked
      or has no predecessor: walking back from t stops. */
  ghost predicate RankedChain(prev: map<Node, Node>, rank: map<Node, nat>, t: Node)
  {
    (forall v :: v in prev && v in rank ==> prev[v] in rank && rank[prev[v]] < rank[v]) &&
    (t in rank || t !in prev)
  }

  ghost function ChainMeasure(cur: Option<Node>, rank: map<Node, nat>): nat
  {
    match cur
    case None => 0
    case Some(v) => if v in rank then rank[v] + 2 else 1
  }

  function Reverse<T>(s: seq<T>): (r: seq<T>)
    ensures |r| == |s| && forall i :: 0 <= i < |s| ==> r[i] == s[|s| - 1 - i]
  {
    seq(|s|, i requires 0 <= i < |s| => s[|s| - 1 - i])
  }

  /** Appends the goal and its predecessors until there is none, then reverses. */
  method Reconstruct(prev: map<Node, Node>, t: Node, ghost rank: map<Node, nat>) returns (path: seq<Node>)
    requires RankedChain(prev, rank, t)
    ensures BackChain(prev, t, path) && Distinct(path)
  {
    var rev: seq<Node> := [];
    var cur: Option<Node> := Some(t);
    while cur.Some?
      invariant rev == [] ==> cur == Some(t)
      invariant rev != [] ==> rev[0] == t && (cur.Some? <==> Last(rev) in prev)
      invariant rev != [] && cur.Some? ==> cur.value == prev[Last(rev)]
      invariant forall i :: 0 <= i < |rev| - 1 ==> rev[i] in prev && prev[rev[i]] == rev[i + 1]
      invariant cur.Some? ==> cur.value in rank || cur.value !in prev
      invariant forall i :: 1 <= i < |rev| ==> rev[i] in rank && t in rank && rank[rev[i]] < rank[t]
      invariant forall i, j :: 1 <= i < j < |rev| ==> rank[rev[j]] < rank[rev[i]]
      invariant |rev| >= 2 && cur.Some? ==> cur.value in rank && rank[cur.value] < rank[Last(rev)]
      invariant |rev| == 1 && cur.Some? ==> t in rank && cur.value in rank && rank[cur.value] < rank[t]
      decreases ChainMeasure(cur, rank)
    {
      var v := cur.value;
      rev := rev + [v];
      cur := if v in prev then Some(prev[v]) else None;
    }
    path := Reverse(rev);
    assert forall i :: 0 <= i < |path| ==> path[i] == rev[|rev| - 1 - i];
    forall i, j | 0 <= i < j < |path|
      ensures path[i] != path[j]
    {
      var a, b := |rev| - 1 - i, |rev| - 1 - j;
      assert b < a;
    }
  }

  // ---------------------------------------------------------------------
  // Best-first search: Dijkstra's algorithm and A*

  /** p is a start-to-goal walk through distinct nodes whose weights add up to c. */
  ghost predicate Route(g: Graph, s: Node, t: Node, p: seq<Node>, c: real)
  {
    |p| >= 1 && p[0] == s && Last(p) == t && Distinct(p) &&
    exists ws :: IsWalk(g, p, ws) && Sum(ws) == c
  }

  /** No start-to-goal walk costs less than c. */
  ghost predicate Cheapest(g: Graph, s: Node, t: Node, c: real)
  {
    forall p, ws {:trigger IsWalk(g, p, ws)} :: IsWalk(g, p, ws) && p[0] == s && Last(p) == t ==> c <= Sum(ws)
  }

  /** Bookkeeping of the search tree: dist holds the finite distances and
      prev the back-pointers that have been set; s is at distance 0 without a
      back-pointer, and it is the first node visited. */
  ghost predicate TreeKeys(g: Graph, s: Node, dist: map<Node, real>, prev: map<Node, Node>,
                           via: map<Node, real>, visited: set<Node>, rank: map<Node, nat>)
  {
    s in dist && dist[s] == 0.0 && s !in prev &&
    dist.Keys <= g.Keys &&
    prev.Keys <= dist.Keys && dist.Keys <= prev.Keys + {s} &&
    prev.Keys <= via.Keys &&
    visited <= dist.Keys && rank.Keys == visited &&
    (visited != {} ==> s in visited) &&
    (forall v :: v in rank ==> rank[v] < |visited|)
  }

  /** Every recorded predecessor is visited and joined to its successor by an
      edge of weight via[v], and the distances add up along it. */
  ghost predicate TreeEdges(g: Graph, dist: map<Node, real>, prev: map<Node, Node>,
                            via: map<Node, real>, visited: set<Node>)
  {
    forall v :: v in prev ==>
      prev[v] in visited && prev[v] in dist && v in dist && v in via &&
      HasEdge(g, prev[v], v, via[v]) && dist[v] == dist[prev[v]] + via[v]
  }

  /** A visited node was visited after its predecessor. */
  ghost predicate TreeRanks(prev: map<Node, Node>, visited: set<Node>, rank: map<Node, nat>)
  {
    forall v :: v in prev && v in visited ==> v in rank && prev[v] in rank && rank[prev[v]] < rank[v]
  }

  ghost predicate TreeInv(g: Graph, s: Node, dist: map<Node, real>, prev: map<Node, Node>,
                          via: map<Node, real>, visited: set<Node>, rank: map<Node, nat>)
  {
    TreeKeys(g, s, dist, prev, via, visited, rank) && TreeEdges(g, dist, prev, via, visited) &&
    TreeRanks(prev, visited, rank)
  }

  /** Every heap entry names a node with a distance, and an entry of an
      unvisited node is never below its current priority. */
  ghost predicate QueueSound(h: Node -> real, dist: map<Node, real>, visited: set<Node>, q: seq<Entry>)
  {
    forall i :: 0 <= i < |q| ==>
      q[i].node in dist && (q[i].node !in visited ==> q[i].key >= dist[q[i].node] + h(q[i].node))
  }

  /** Every unvisited node with a distance has an entry at exactly its current priority. */
  ghost predicate QueueComplete(h: Node -> real, dist: map<Node, real>, visited: set<Node>, q: seq<Entry>)
  {
    forall v :: v in dist && v !in visited ==> Entry(dist[v] + h(v), v) in q
  }

  ghost predicate QueueInv(h: Node -> real, dist: map<Node, real>, visited: set<Node>, q: seq<Entry>)
  {
    QueueSound(h, dist, visited, q) && QueueComplete(h, dist, visited, q)
  }

  /** The edges of visited nodes other than the goal have been relaxed, those
      of u only as far as the edges listed in done. */
  ghost predicate RelaxedExcept(g: Graph, t: Node, dist: map<Node, real>, visited: set<Node>,
                                u: Node, done: seq<Edge>)
  {
    forall x, e :: x in visited && x != t && x in g && x in dist && e in g[x] && e.dest !in visited &&
                   (x == u ==> e in done) ==>
      e.dest in dist && dist[e.dest] <= dist[x] + e.weight
  }

  ghost predicate Relaxed(g: Graph, t: Node, dist: map<Node, real>, visited: set<Node>)
  {
    forall x, e :: x in visited && x != t && x in g && x in dist && e in g[x] && e.dest !in visited ==>
      e.dest in dist && dist[e.dest] <= dist[x] + e.weight
  }

  /** Visited nodes carry their cheapest distance from s. */
  ghost predicate Shortest(g: Graph, s: Node, dist: map<Node, real>, visited: set<Node>)
  {
    forall p, ws {:trigger IsWalk(g, p, ws)} :: IsWalk(g, p, ws) && p[0] == s && Last(p) in visited ==>
      Last(p) in dist && dist[Last(p)] <= Sum(ws)
  }

  lemma ShortestFrame(g: Graph, s: Node, d1: map<Node, real>, d2: map<Node, real>, visited: set<Node>)
    requires Shortest(g, s, d1, visited)
    requires forall v :: v in visited ==> v in d1 && v in d2 && d2[v] == d1[v]
    ensures Shortest(g, s, d2, visited)
  {
  }

  lemma QueueAfterPop(h: Node -> real, dist: map<Node, real>, v1: set<Node>, v2: set<Node>, q: seq<Entry>, m: nat)
    requires QueueInv(h, dist, v1, q) && m < |q|
    requires v1 <= v2 && v2 <= v1 + {q[m].node} && q[m].node in v2
    ensures QueueInv(h, dist, v2, RemoveAt(q, m))
  {
    var r := RemoveAt(q, m);
    forall v | v in dist && v !in v2
      ensures Entry(dist[v] + h(v), v) in r
    {
      var j :| 0 <= j < |q| && q[j] == Entry(dist[v] + h(v), v);
    }
  }

  /** The first position of a walk outside the visited set. */
  lemma FirstOutside(p: seq<Node>, visited: set<Node>) returns (i: nat)
    requires |p| >= 1 && Last(p) !in visited
    ensures i < |p| && p[i] !in visited
    ensures forall k :: 0 <= k < i ==> p[k] in visited
  {
    i := 0;
    while p[i] in visited
      invariant i < |p|
      invariant forall k :: 0 <= k < i ==> p[k] in visited
      decreases |p| - i
    {
      i := i + 1;
    }
  }

  /** The entry popped for an unvisited node has its current priority. */
  lemma PoppedKey(h: Node -> real, dist: map<Node, real>, visited: set<Node>, q: seq<Entry>, m: nat)
    requires QueueInv(h, dist, visited, q) && m < |q| && q[m].node !in visited
    requires forall j :: 0 <= j < |q| ==> q[m].key <= q[j].key
    ensures q[m].node in dist && q[m].key == dist[q[m].node] + h(q[m].node)
  {
    var u := q[m].node;
    var j :| 0 <= j < |q| && q[j] == Entry(dist[u] + h(u), u);
  }

  /** A walk from s that leaves the visited set first does so at a node whose
      distance is at most the cost of the walk up to it. */
  lemma FrontierBound(g: Graph, s: Node, t: Node, dist: map<Node, real>, visited: set<Node>,
                      p: seq<Node>, ws: seq<real>) returns (i: nat)
    requires s in dist && dist[s] == 0.0 && visited <= dist.Keys && t !in visited
    requires Relaxed(g, t, dist, visited) && Shortest(g, s, dist, visited)
    requires IsWalk(g, p, ws) && p[0] == s && Last(p) !in visited
    ensures i < |p| && p[i] !in visited && p[i] in dist && dist[p[i]] <= Sum(ws[..i])
  {
    i := FirstOutside(p, visited);
    if i == 0 {
      assert Sum(ws[..0]) == 0.0;
    } else {
      var x, y := p[i - 1], p[i];
      WalkSplit(g, p, ws, i - 1);
      assert Last(p[..i]) == x && p[..i][0] == s;
      assert dist[x] <= Sum(ws[..i - 1]);
      assert HasEdge(g, x, y, ws[i - 1]);
      assert Edge(y, ws[i - 1]) in g[x];
      assert dist[y] <= dist[x] + ws[i - 1];
      assert ws[..i][..i - 1] == ws[..i - 1];
    }
  }

  /** With a consistent heuristic, a walk from s to the node popped next costs
      at least its distance. */
  lemma WalkToPopped(g: Graph, h: Node -> real, s: Node, t: Node, dist: map<Node, real>, visited: set<Node>,
                     q: seq<Entry>, m: nat, p: seq<Node>, ws: seq<real>)
    requires s in dist && dist[s] == 0.0 && visited <= dist.Keys && t !in visited
    requires Relaxed(g, t, dist, visited) && Shortest(g, s, dist, visited) && Consistent(g, h)
    requires QueueComplete(h, dist, visited, q)
    requires m < |q| && q[m].node in dist && q[m].key == dist[q[m].node] + h(q[m].node)
    requires forall j :: 0 <= j < |q| ==> q[m].key <= q[j].key
    requires IsWalk(g, p, ws) && p[0] == s && Last(p) == q[m].node && q[m].node !in visited
    ensures dist[q[m].node] <= Sum(ws)
  {
    var u := q[m].node;
    var i := FrontierBound(g, s, t, dist, visited, p, ws);
    var x := p[i];
    WalkSplit(g, p, ws, i);
    assert Entry(dist[x] + h(x), x) in q;
    WalkCostBound(g, h, p[i..], ws[i..]);
    assert Sum(ws[i..]) >= h(x) - h(u);
  }

  /** With a consistent heuristic, the node popped next already has its
      cheapest distance. */
  lemma PopOptimal(g: Graph, h: Node -> real, s: Node, t: Node, dist: map<Node, real>, visited: set<Node>,
                   q: seq<Entry>, m: nat)
    requires s in dist && dist[s] == 0.0 && visited <= dist.Keys && t !in visited
    requires Relaxed(g, t, dist, visited) && Shortest(g, s, dist, visited) && Consistent(g, h)
    requires QueueComplete(h, dist, visited, q)
    requires m < |q| && q[m].node in dist && q[m].key == dist[q[m].node] + h(q[m].node)
    requires forall j :: 0 <= j < |q| ==> q[m].key <= q[j].key
    requires q[m].node !in visited
    ensures Shortest(g, s, dist, visited + {q[m].node})
  {
    forall p, ws | IsWalk(g, p, ws) && p[0] == s && Last(p) in visited + {q[m].node}
      ensures Last(p) in dist && dist[Last(p)] <= Sum(ws)
    {
      if Last(p) !in visited {
        WalkToPopped(g, h, s, t, dist, visited, q, m, p, ws);
      }
    }
  }

  /** Relaxes the edges of the newly visited node u, in order. The source adds
      the weight to the popped key (Dijkstra) or to g_score[u] (A*); both are
      dist[u] here, since the popped key of an unvisited node is its priority. */
  method Relax(g: Graph, h: Node -> real, s: Node, t: Node, u: Node,
               dist0: map<Node, real>, prev0: map<Node, Node>, q0: seq<Entry>, visited: set<Node>,
               ghost via0: map<Node, real>, ghost rank: map<Node, nat>)
    returns (err: Option<Node>, dist: map<Node, real>, prev: map<Node, Node>, q: seq<Entry>, ghost via: map<Node, real>)
    requires u in visited && u in g && s in visited
    requires TreeInv(g, s, dist0, prev0, via0, visited, rank) && QueueInv(h, dist0, visited, q0)
    requires RelaxedExcept(g, t, dist0, visited, u, [])
    ensures err.Some? ==> err.value !in g && !Closed(g)
    ensures err.None? ==> TreeInv(g, s, dist, prev, via, visited, rank) && QueueInv(h, dist, visited, q)
    ensures err.None? ==> Relaxed(g, t, dist, visited)
    ensures err.None? ==> forall v :: v in visited ==> v in dist && dist[v] == dist0[v]
  {
    dist, prev, q, via := dist0, prev0, q0, via0;
    err := None;
    var j := 0;
    while j < |g[u]|
      invariant 0 <= j <= |g[u]|
      invariant TreeInv(g, s, dist, prev, via, visited, rank)
      invariant QueueInv(h, dist, visited, q)
      invariant RelaxedExcept(g, t, dist, visited, u, g[u][..j])
      invariant forall v :: v in visited ==> v in dist && dist[v] == dist0[v]
      invariant err == None
    {
      err, dist, prev, q, via := RelaxEdge(g, h, s, t, u, j, dist, prev, q, visited, via, rank);
      if err.Some? {
        return;
      }
      j := j + 1;
    }
    RelaxedAll(g, t, dist, visited, u);
  }

  /** Once every edge of u is done, all edges of visited nodes are relaxed. */
  lemma RelaxedAll(g: Graph, t: Node, dist: map<Node, real>, visited: set<Node>, u: Node)
    requires u in g && RelaxedExcept(g, t, dist, visited, u, g[u][..|g[u]|])
    ensures Relaxed(g, t, dist, visited)
  {
    assert g[u][..|g[u]|] == g[u];
  }

  /** Looks at one edge e of u: a target not yet visited whose distance is
      unknown or larger than through u gets the distance through u, u as its
      back-pointer and a new heap entry. */
  method RelaxEdge(g: Graph, h: Node -> real, s: Node, t: Node, u: Node, j: nat,
                   dist0: map<Node, real>, prev0: map<Node, Node>, q0: seq<Entry>, visited: set<Node>,
                   ghost via0: map<Node, real>, ghost rank: map<Node, nat>)
    returns (err: Option<Node>, dist: map<Node, real>, prev: map<Node, Node>, q: seq<Entry>, ghost via: map<Node, real>)
    requires u in visited && u in g && s in visited && j < |g[u]|
    requires TreeInv(g, s, dist0, prev0, via0, visited, rank) && QueueInv(h, dist0, visited, q0)
    requires RelaxedExcept(g, t, dist0, visited, u, g[u][..j])
    ensures err.Some? ==> err.value !in g && !Closed(g)
    ensures err.None? ==> TreeInv(g, s, dist, prev, via, visited, rank) && QueueInv(h, dist, visited, q)
    ensures err.None? ==> RelaxedExcept(g, t, dist, visited, u, g[u][..j + 1])
    ensures err.None? ==> forall v :: v in visited ==> v in dist && dist[v] == dist0[v]
  {
    dist, prev, q, via := dist0, prev0, q0, via0;
    err := None;
    var e := g[u][j];
    assert e in g[u];
    if e.dest in visited {
      RelaxDone(g, t, u, j, dist, dist, visited);
      return;
    }
    if e.dest !in g {
      return Some(e.dest), dist, prev, q, via;
    }
    var nd := dist[u] + e.weight;
    if e.dest !in dist || nd < dist[e.dest] {
      var d2, p2, w2, q2 := dist[e.dest := dist[u] + e.weight], prev[e.dest := u], via[e.dest := e.weight],
                            q + [Entry(dist[u] + e.weight + h(e.dest), e.dest)];
      RelaxTree(g, s, u, e, dist, prev, via, visited, rank);
      RelaxQueue(h, u, e, dist, q, visited);
      RelaxDone(g, t, u, j, dist, d2, visited);
      dist, prev, via, q := d2, p2, w2, q2;
    } else {
      RelaxDone(g, t, u, j, dist, dist, visited);
    }
  }

  /** A successful relaxation of e out of u keeps the search tree well formed. */
  lemma RelaxTree(g: Graph, s: Node, u: Node, e: Edge,
                  d1: map<Node, real>, p1: map<Node, Node>, w1: map<Node, real>,
                  visited: set<Node>, rank: map<Node, nat>)
    requires u in visited && u in g && s in visited && e in g[u] && e.dest !in visited && e.dest in g
    requires TreeInv(g, s, d1, p1, w1, visited, rank)
    ensures TreeInv(g, s, d1[e.dest := d1[u] + e.weight], p1[e.dest := u], w1[e.dest := e.weight], visited, rank)
    ensures forall v :: v in visited ==> v in d1 && d1[e.dest := d1[u] + e.weight][v] == d1[v]
  {
    var d2, p2, w2 := d1[e.dest := d1[u] + e.weight], p1[e.dest := u], w1[e.dest := e.weight];
    assert HasEdge(g, u, e.dest, e.weight);
    assert TreeKeys(g, s, d2, p2, w2, visited, rank);
    forall v | v in p2
      ensures p2[v] in visited && p2[v] in d2 && v in d2 && v in w2 &&
              HasEdge(g, p2[v], v, w2[v]) && d2[v] == d2[p2[v]] + w2[v]
    {
      if v != e.dest {
        assert p1[v] in visited;
      }
    }
  }

  /** A successful relaxation pushes the new priority and keeps the heap invariants. */
  lemma RelaxQueue(h: Node -> real, u: Node, e: Edge, d1: map<Node, real>, q1: seq<Entry>, visited: set<Node>)
    requires u in d1 && e.dest !in visited && QueueInv(h, d1, visited, q1)
    requires e.dest !in d1 || d1[u] + e.weight < d1[e.dest]
    ensures QueueInv(h, d1[e.dest := d1[u] + e.weight], visited, q1 + [Entry(d1[u] + e.weight + h(e.dest), e.dest)])
  {
    var v := e.dest;
    var d2, q2 := d1[e.dest := d1[u] + e.weight], q1 + [Entry(d1[u] + e.weight + h(e.dest), e.dest)];
    forall i | 0 <= i < |q2|
      ensures q2[i].node in d2 && (q2[i].node !in visited ==> q2[i].key >= d2[q2[i].node] + h(q2[i].node))
    {
      if i < |q1| {
        assert q2[i] == q1[i];
      }
    }
    forall w | w in d2 && w !in visited
      ensures Entry(d2[w] + h(w), w) in q2
    {
      if w != v {
        assert Entry(d1[w] + h(w), w) in q1;
      } else {
        assert q2[|q1|] == Entry(d2[w] + h(w), w);
      }
    }
  }

  /** After looking at e (relaxing it or not), e counts as done. */
  lemma RelaxDone(g: Graph, t: Node, u: Node, j: nat, d1: map<Node, real>, d2: map<Node, real>,
                  visited: set<Node>)
    requires u in visited && u in g && j < |g[u]| && u in d1
    requires RelaxedExcept(g, t, d1, visited, u, g[u][..j])
    requires visited <= d1.Keys <= d2.Keys
    requires forall v :: v in visited ==> d2[v] == d1[v]
    requires forall v :: v in d1 ==> d2[v] <= d1[v]
    requires g[u][j].dest !in visited ==> g[u][j].dest in d2 && d2[g[u][j].dest] <= d1[u] + g[u][j].weight
    ensures RelaxedExcept(g, t, d2, visited, u, g[u][..j + 1])
  {
    assert g[u][..j + 1] == g[u][..j] + [g[u][j]];
  }

  /** The walk read off the search tree from s to a node with a distance. */
  lemma TreeWalk(g: Graph, s: Node, t: Node, dist: map<Node, real>, prev: map<Node, Node>,
                 via: map<Node, real>, visited: set<Node>, rank: map<Node, nat>, p: seq<Node>)
    returns (ws: seq<real>)
    requires TreeInv(g, s, dist, prev, via, visited, rank) && t in dist && BackChain(prev, t, p)
    ensures p[0] == s && IsWalk(g, p, ws) && Sum(ws) == dist[t]
  {
    ws := seq(|p| - 1, i requires 0 <= i < |p| - 1 => if p[i + 1] in via then via[p[i + 1]] else 0.0);
    forall i | 0 <= i < |p|
      ensures p[i] in dist
    {
      if i < |p| - 1 {
        assert prev[p[i + 1]] == p[i];
      }
    }
    forall i | 0 <= i < |ws|
      ensures HasEdge(g, p[i], p[i + 1], ws[i]) && dist[p[i + 1]] == dist[p[i]] + ws[i]
    {
      assert p[i + 1] in prev && prev[p[i + 1]] == p[i];
    }
    Telescope(p, ws, dist);
  }

  /** Pops the least entry and, if its node is new, visits it and relaxes
      its edges (unless it is the goal). */
  method BestFirstStep(g: Graph, h: Node -> real, s: Node, t: Node, dist0: map<Node, real>, prev0: map<Node, Node>,
                       q0: seq<Entry>, visited0: set<Node>, ghost via0: map<Node, real>, ghost rank0: map<Node, nat>)
    returns (err: Option<Node>, dist: map<Node, real>, prev: map<Node, Node>, q: seq<Entry>, visited: set<Node>,
             ghost via: map<Node, real>, ghost rank: map<Node, nat>)
    requires s in g && |q0| > 0 && t !in visited0
    requires TreeInv(g, s, dist0, prev0, via0, visited0, rank0) && QueueInv(h, dist0, visited0, q0)
    requires Relaxed(g, t, dist0, visited0)
    requires Consistent(g, h) ==> Shortest(g, s, dist0, visited0)
    ensures err.Some? ==> err.value !in g && !Closed(g)
    ensures err.None? ==> TreeInv(g, s, dist, prev, via, visited, rank) && QueueInv(h, dist, visited, q)
    ensures err.None? ==> Relaxed(g, t, dist, visited)
    ensures err.None? ==> (Consistent(g, h) ==> Shortest(g, s, dist, visited))
    ensures err.None? ==> visited0 <= visited <= g.Keys
    ensures err.None? ==> visited == visited0 ==> |q| < |q0|
  {
    var m := PopIndex(q0);
    PoppedKeyIsLeast(q0, m);
    var u := q0[m].node;
    err, dist, prev, via, rank := None, dist0, prev0, via0, rank0;
    if u in visited0 {
      QueueAfterPop(h, dist0, visited0, visited0, q0, m);
      q, visited := RemoveAt(q0, m), visited0;
      return;
    }
    PoppedKey(h, dist0, visited0, q0, m);
    if Consistent(g, h) {
      PopOptimal(g, h, s, t, dist0, visited0, q0, m);
    }
    VisitTree(g, s, dist0, prev0, via0, visited0, rank0, u);
    RelaxedAfterVisit(g, t, dist0, visited0, u);
    QueueAfterPop(h, dist0, visited0, visited0 + {u}, q0, m);
    q := RemoveAt(q0, m);
    rank := rank0[u := |visited0|];
    visited := visited0 + {u};
    if u != t {
      err, dist, prev, q, via := Relax(g, h, s, t, u, dist, prev, q, visited, via, rank);
      if err.None? && Consistent(g, h) {
        ShortestFrame(g, s, dist0, dist, visited);
      }
    }
  }

  /** Visiting the popped node u keeps the search tree well formed: u gets
      the next rank, and before the first visit the tree holds only s. */
  lemma VisitTree(g: Graph, s: Node, dist: map<Node, real>, prev: map<Node, Node>,
                  via: map<Node, real>, visited: set<Node>, rank: map<Node, nat>, u: Node)
    requires TreeInv(g, s, dist, prev, via, visited, rank) && u in dist && u !in visited
    ensures TreeInv(g, s, dist, prev, via, visited + {u}, rank[u := |visited|])
  {
    VisitKeys(g, s, dist, prev, via, visited, rank, u);
    VisitRanks(prev, visited, rank, u);
  }

  lemma VisitKeys(g: Graph, s: Node, dist: map<Node, real>, prev: map<Node, Node>,
                  via: map<Node, real>, visited: set<Node>, rank: map<Node, nat>, u: Node)
    requires TreeKeys(g, s, dist, prev, via, visited, rank) && TreeEdges(g, dist, prev, via, visited)
    requires u in dist && u !in visited
    ensures TreeKeys(g, s, dist, prev, via, visited + {u}, rank[u := |visited|])
  {
    if visited == {} && u != s {
      assert false;
    }
    assert |visited + {u}| == |visited| + 1;
  }

  lemma VisitRanks(prev: map<Node, Node>, visited: set<Node>, rank: map<Node, nat>, u: Node)
    requires TreeRanks(prev, visited, rank) && rank.Keys == visited && u !in visited
    requires forall v :: v in rank ==> rank[v] < |visited|
    requires forall v :: v in prev ==> prev[v] in visited
    ensures TreeRanks(prev, visited + {u}, rank[u := |visited|])
  {
  }

  /** Adding u to the visited set keeps every other edge relaxed, and leaves
      all of u's edges to be looked at. */
  lemma RelaxedAfterVisit(g: Graph, t: Node, dist: map<Node, real>, visited: set<Node>, u: Node)
    requires Relaxed(g, t, dist, visited)
    ensures RelaxedExcept(g, t, dist, visited + {u}, u, [])
    ensures u == t ==> Relaxed(g, t, dist, visited + {u})
  {
  }

  /** Best-first search from s to t ordered by distance plus h, with lazy
      deletion: stale heap entries of visited nodes are skipped, the search
      stops when t is popped, and the path is read back from prev. */
  method BestFirst(g: Graph, h: Node -> real, s: Node, t: Node) returns (r: Result<SearchResult, SearchError>)
    requires s in g && t in g
    ensures Closed(g) ==> r.Ok?
    ensures r.Err? ==> r.error.node !in g
    ensures r.Ok? && r.value.Found? ==> Route(g, s, t, r.value.path, r.value.cost)
    ensures r.Ok? && r.value.Found? && Consistent(g, h) ==> Cheapest(g, s, t, r.value.cost)
    ensures r.Ok? ==> (r.value.NoPath? <==> !Reachable(g, s, t))
  {
    var dist: map<Node, real> := map[s := 0.0];
    var prev: map<Node, Node> := map[];
    ghost var via: map<Node, real> := map[];
    ghost var rank: map<Node, nat> := map[];
    var q := [Entry(h(s), s)];
    var visited: set<Node> := {};
    StartState(g, h, s, t);
    while |q| > 0 && t !in visited
      invariant TreeInv(g, s, dist, prev, via, visited, rank) && QueueInv(h, dist, visited, q)
      invariant Relaxed(g, t, dist, visited)
      invariant Consistent(g, h) ==> Shortest(g, s, dist, visited)
      invariant visited <= g.Keys
      decreases |g.Keys - visited|, |q|
    {
      ghost var v0 := visited;
      var err;
      err, dist, prev, q, visited, via, rank := BestFirstStep(g, h, s, t, dist, prev, q, visited, via, rank);
      if err.Some? {
        return Err(MissingNode(err.value));
      }
      if visited != v0 {
        FewerLeft(g.Keys, v0, visited);
      }
    }
    var found := ReadPath(g, h, s, t, dist, prev, q, visited, via, rank);
    return Ok(found);
  }

  /** The search starts with s at distance 0 as the only heap entry. */
  lemma StartState(g: Graph, h: Node -> real, s: Node, t: Node)
    requires s in g
    ensures TreeInv(g, s, map[s := 0.0], map[], map[], {}, map[])
    ensures QueueInv(h, map[s := 0.0], {}, [Entry(h(s), s)])
    ensures Relaxed(g, t, map[s := 0.0], {}) && Shortest(g, s, map[s := 0.0], {})
  {
    StartQueue(h, s);
  }

  lemma StartQueue(h: Node -> real, s: Node)
    ensures QueueInv(h, map[s := 0.0], {}, [Entry(h(s), s)])
  {
    var d := map[s := 0.0];
    assert [Entry(h(s), s)][0] == Entry(d[s] + h(s), s);
  }

  /** Visiting a new node leaves fewer nodes unvisited. */
  lemma FewerLeft(keys: set<Node>, v0: set<Node>, v1: set<Node>)
    requires v0 <= v1 <= keys && v0 != v1
    ensures |keys - v1| < |keys - v0|
  {
    var x :| x in v1 && x !in v0;
    assert keys - v1 <= (keys - v0) - {x};
    SubsetCard(keys - v1, (keys - v0) - {x});
  }

  lemma {:induction false} SubsetCard(a: set<Node>, b: set<Node>)
    requires a <= b
    ensures |a| <= |b|
    decreases |a|
  {
    if a != {} {
      var x :| x in a;
      SubsetCard(a - {x}, b - {x});
    }
  }

  /** Reads the result off the search state once the loop has stopped: the
      back-pointer chain from t when it starts at s, NoPath otherwise. */
  method ReadPath(g: Graph, h: Node -> real, s: Node, t: Node, dist: map<Node, real>, prev: map<Node, Node>,
                  q: seq<Entry>, visited: set<Node>, ghost via: map<Node, real>, ghost rank: map<Node, nat>)
    returns (r: SearchResult)
    requires TreeInv(g, s, dist, prev, via, visited, rank) && QueueInv(h, dist, visited, q)
    requires Relaxed(g, t, dist, visited)
    requires Consistent(g, h) ==> Shortest(g, s, dist, visited)
    requires |q| == 0 || t in visited
    ensures r.Found? ==> Route(g, s, t, r.path, r.cost)
    ensures r.Found? && Consistent(g, h) ==> Cheapest(g, s, t, r.cost)
    ensures r.NoPath? <==> !Reachable(g, s, t)
  {
    assert RankedChain(prev, rank, t) by {
      if t !in visited {
        NoPathWhenExhausted(g, h, s, t, dist, prev, via, visited, rank, q);
      }
    }
    var path := Reconstruct(prev, t, rank);
    ghost var ws: seq<real>;
    if t in visited {
      ws := TreeWalk(g, s, t, dist, prev, via, visited, rank, path);
      WalkIsPath(g, path, ws);
    } else {
      NoPathWhenExhausted(g, h, s, t, dist, prev, via, visited, rank, q);
      assert path == [t];
    }
    if path[0] != s {
      return NoPath;
    }
    r := Found(path, dist[t]);
  }

  /** An empty heap leaves the visited set closed under edges, so a goal left
      unvisited is unreachable and has no distance. */
  lemma NoPathWhenExhausted(g: Graph, h: Node -> real, s: Node, t: Node, dist: map<Node, real>,
                            prev: map<Node, Node>, via: map<Node, real>, visited: set<Node>,
                            rank: map<Node, nat>, q: seq<Entry>)
    requires TreeInv(g, s, dist, prev, via, visited, rank) && QueueInv(h, dist, visited, q)
    requires Relaxed(g, t, dist, visited) && t !in visited && |q| == 0
    ensures !Reachable(g, s, t) && t !in dist && t !in prev && s != t
  {
    assert forall v :: v in dist ==> v in visited;
    assert forall x, e :: x in visited && x in g && e in g[x] ==> e.dest in visited;
    if Reachable(g, s, t) {
      ReachInClosedSet(g, visited, s, t);
    }
  }

  // ---------------------------------------------------------------------
  // Breadth-first search

  /** Every node named by the route map: its keys and its edge targets. */
  ghost function NodesOf(g: Graph): set<Node>
  {
    g.Keys + set u, e | u in g && e in g[u] :: e.dest
  }

  function Successors(g: Graph, u: Node): seq<Edge>
  {
    if u in g then g[u] else []
  }

  /** Bookkeeping of breadth-first search: seen nodes (Python's visited
      flags) carry their level, s at level 0 without a back-pointer and every
      other seen node with one; expanded nodes are seen and the goal is never
      expanded. */
  ghost predicate BfsKeys(g: Graph, s: Node, t: Node, prev: map<Node, Node>, seen: set<Node>,
                          lvl: map<Node, nat>, expanded: set<Node>)
  {
    s in seen && lvl.Keys == seen && lvl[s] == 0 && s !in prev &&
    prev.Keys <= seen && seen <= prev.Keys + {s} &&
    seen <= NodesOf(g) && expanded <= seen && t !in expanded
  }

  /** The queue holds the seen nodes not yet expanded, each once, in level
      order, spanning the levels cur and cur + 1. */
  ghost predicate BfsQueue(q: seq<Node>, seen: set<Node>, lvl: map<Node, nat>, expanded: set<Node>, cur: nat)
  {
    Distinct(q) &&
    (forall i :: 0 <= i < |q| ==> q[i] in seen && q[i] in lvl && q[i] !in expanded) &&
    (forall v :: v in seen && v !in expanded ==> v in q) &&
    (forall i :: 0 <= i < |q| ==> cur <= lvl[q[i]] <= cur + 1) &&
    (forall i, j :: 0 <= i < j < |q| ==> lvl[q[i]] <= lvl[q[j]])
  }

  /** A back-pointer leads along an edge from an expanded node one level down. */
  ghost predicate BfsTree(g: Graph, prev: map<Node, Node>, lvl: map<Node, nat>, expanded: set<Node>)
  {
    forall v :: v in prev ==>
      prev[v] in expanded && Step(g, prev[v], v) && v in lvl && prev[v] in lvl && lvl[v] == lvl[prev[v]] + 1
  }

  /** No path from s reaches a seen node in fewer steps than its level. */
  ghost predicate BfsMinimal(g: Graph, s: Node, lvl: map<Node, nat>)
  {
    forall p {:trigger IsPath(g, p)} :: IsPath(g, p) && p[0] == s && Last(p) in lvl ==> lvl[Last(p)] <= |p| - 1
  }

  ghost predicate BfsInv(g: Graph, s: Node, t: Node, q: seq<Node>, prev: map<Node, Node>, seen: set<Node>,
                         lvl: map<Node, nat>, expanded: set<Node>, cur: nat)
  {
    BfsKeys(g, s, t, prev, seen, lvl, expanded) && BfsQueue(q, seen, lvl, expanded, cur) &&
    BfsTree(g, prev, lvl, expanded) && BfsMinimal(g, s, lvl)
  }

  /** Expanded nodes other than u have all their targets seen; u has the
      targets of the edges listed in done seen. */
  ghost predicate ExpandedClosed(g: Graph, seen: set<Node>, expanded: set<Node>, u: Node, done: seq<Edge>)
  {
    forall x, e :: x in expanded && x in g && e in g[x] && (x == u ==> e in done) ==> e.dest in seen
  }

  /** A path to a node not yet seen is longer than the level of the node
      being expanded. */
  lemma UnseenIsFar(g: Graph, s: Node, t: Node, q: seq<Node>, prev: map<Node, Node>, seen: set<Node>,
                    lvl: map<Node, nat>, expanded: set<Node>, u: Node, done: seq<Edge>, p: seq<Node>)
    requires u in expanded && u in lvl && BfsInv(g, s, t, q, prev, seen, lvl, expanded, lvl[u])
    requires ExpandedClosed(g, seen, expanded, u, done)
    requires IsPath(g, p) && p[0] == s && Last(p) !in seen
    ensures lvl[u] + 1 <= |p| - 1
  {
    var i := FirstOutside(p, seen);
    var x := p[i - 1];
    assert IsPath(g, p[..i]) && p[..i][0] == s && Last(p[..i]) == x;
    assert lvl[x] <= i - 1;
    assert Step(g, x, p[i]);
    var k :| 0 <= k < |g[x]| && g[x][k].dest == p[i];
    assert g[x][k] in g[x];
    if x != u {
      assert x !in expanded;
      assert x in q;
    }
  }

  /** Seeing the target v of u's j-th edge for the first time, at the level
      after u's, with u as its back-pointer and a place at the back of the
      queue, keeps the search state. */
  lemma SeeTarget(g: Graph, s: Node, t: Node, q: seq<Node>, prev: map<Node, Node>, seen: set<Node>,
                  lvl: map<Node, nat>, expanded: set<Node>, u: Node, j: nat)
    requires u in expanded && u in lvl && j < |Successors(g, u)|
    requires BfsInv(g, s, t, q, prev, seen, lvl, expanded, lvl[u])
    requires ExpandedClosed(g, seen, expanded, u, Successors(g, u)[..j])
    requires Successors(g, u)[j].dest !in seen
    ensures BfsInv(g, s, t, q + [Successors(g, u)[j].dest], prev[Successors(g, u)[j].dest := u],
                   seen + {Successors(g, u)[j].dest}, lvl[Successors(g, u)[j].dest := lvl[u] + 1], expanded, lvl[u])
  {
    var v := Successors(g, u)[j].dest;
    assert u in g && g[u][j] in g[u];
    assert Step(g, u, v) by { assert g[u][j].dest == v; }
    assert v in NodesOf(g);
    SeeKeys(g, s, t, prev, seen, lvl, expanded, u, v);
    SeeQueue(q, seen, lvl, expanded, lvl[u], v);
    SeeTree(g, prev, lvl, expanded, u, v);
    SeeMinimal(g, s, t, q, prev, seen, lvl, expanded, u, j);
  }

  lemma SeeKeys(g: Graph, s: Node, t: Node, prev: map<Node, Node>, seen: set<Node>,
                lvl: map<Node, nat>, expanded: set<Node>, u: Node, v: Node)
    requires BfsKeys(g, s, t, prev, seen, lvl, expanded) && u in lvl && v !in seen && v in NodesOf(g)
    ensures BfsKeys(g, s, t, prev[v := u], seen + {v}, lvl[v := lvl[u] + 1], expanded)
  {
  }

  lemma SeeTree(g: Graph, prev: map<Node, Node>, lvl: map<Node, nat>, expanded: set<Node>, u: Node, v: Node)
    requires BfsTree(g, prev, lvl, expanded) && u in expanded && u in lvl && v !in lvl && Step(g, u, v)
    ensures BfsTree(g, prev[v := u], lvl[v := lvl[u] + 1], expanded)
  {
  }

  lemma SeeMinimal(g: Graph, s: Node, t: Node, q: seq<Node>, prev: map<Node, Node>, seen: set<Node>,
                   lvl: map<Node, nat>, expanded: set<Node>, u: Node, j: nat)
    requires u in expanded && u in lvl && j < |Successors(g, u)|
    requires BfsInv(g, s, t, q, prev, seen, lvl, expanded, lvl[u])
    requires ExpandedClosed(g, seen, expanded, u, Successors(g, u)[..j])
    requires Successors(g, u)[j].dest !in seen
    ensures BfsMinimal(g, s, lvl[Successors(g, u)[j].dest := lvl[u] + 1])
  {
    var v := Successors(g, u)[j].dest;
    var l2 := lvl[v := lvl[u] + 1];
    forall p | IsPath(g, p) && p[0] == s && Last(p) in l2
      ensures l2[Last(p)] <= |p| - 1
    {
      if Last(p) == v {
        UnseenIsFar(g, s, t, q, prev, seen, lvl, expanded, u, Successors(g, u)[..j], p);
      }
    }
  }

  lemma SeeQueue(q: seq<Node>, seen: set<Node>, lvl: map<Node, nat>, expanded: set<Node>, cur: nat, v: Node)
    requires BfsQueue(q, seen, lvl, expanded, cur) && v !in seen && expanded <= seen
    ensures BfsQueue(q + [v], seen + {v}, lvl[v := cur + 1], expanded, cur)
  {
    var q2, l2 := q + [v], lvl[v := cur + 1];
    assert forall i :: 0 <= i < |q| ==> q2[i] == q[i] && q[i] != v && l2[q2[i]] == lvl[q[i]];
    assert q2[|q|] == v;
  }

  /** After looking at u's j-th edge, its target is seen. */
  lemma ExpandDone(g: Graph, seen: set<Node>, seen2: set<Node>, expanded: set<Node>, u: Node, j: nat)
    requires j < |Successors(g, u)| && seen <= seen2 && Successors(g, u)[j].dest in seen2
    requires ExpandedClosed(g, seen, expanded, u, Successors(g, u)[..j])
    ensures ExpandedClosed(g, seen2, expanded, u, Successors(g, u)[..j + 1])
  {
    var es := Successors(g, u);
    assert es[..j + 1] == es[..j] + [es[j]];
  }

  /** Expands u: each target not seen yet gets level lvl[u] + 1, u as its
      back-pointer, and a place at the back of the queue. */
  method ExpandBfs(g: Graph, s: Node, t: Node, u: Node, q0: seq<Node>, prev0: map<Node, Node>, seen0: set<Node>,
                   ghost lvl0: map<Node, nat>, ghost expanded: set<Node>)
    returns (q: seq<Node>, prev: map<Node, Node>, seen: set<Node>, ghost lvl: map<Node, nat>)
    requires u in expanded && u in lvl0
    requires BfsInv(g, s, t, q0, prev0, seen0, lvl0, expanded, lvl0[u])
    requires ExpandedClosed(g, seen0, expanded, u, [])
    ensures u in lvl && lvl[u] == lvl0[u]
    ensures BfsInv(g, s, t, q, prev, seen, lvl, expanded, lvl[u])
    ensures ExpandedClosed(g, seen, expanded, u, Successors(g, u))
  {
    q, prev, seen, lvl := q0, prev0, seen0, lvl0;
    var es := Successors(g, u);
    var j := 0;
    assert es[..0] == [];
    while j < |es|
      invariant 0 <= j <= |es|
      invariant u in lvl && lvl[u] == lvl0[u]
      invariant BfsInv(g, s, t, q, prev, seen, lvl, expanded, lvl[u])
      invariant ExpandedClosed(g, seen, expanded, u, es[..j])
    {
      q, prev, seen, lvl := ExpandEdge(g, s, t, u, j, q, prev, seen, lvl, expanded);
      j := j + 1;
    }
    assert es[..j] == es;
  }

  /** Looks at u's j-th edge: a target not seen yet is marked seen, gets u as
      its back-pointer and joins the back of the queue. */
  method ExpandEdge(g: Graph, s: Node, t: Node, u: Node, j: nat, q0: seq<Node>, prev0: map<Node, Node>,
                    seen0: set<Node>, ghost lvl0: map<Node, nat>, ghost expanded: set<Node>)
    returns (q: seq<Node>, prev: map<Node, Node>, seen: set<Node>, ghost lvl: map<Node, nat>)
    requires u in expanded && u in lvl0 && j < |Successors(g, u)|
    requires BfsInv(g, s, t, q0, prev0, seen0, lvl0, expanded, lvl0[u])
    requires ExpandedClosed(g, seen0, expanded, u, Successors(g, u)[..j])
    ensures u in lvl && lvl[u] == lvl0[u]
    ensures BfsInv(g, s, t, q, prev, seen, lvl, expanded, lvl[u])
    ensures ExpandedClosed(g, seen, expanded, u, Successors(g, u)[..j + 1])
  {
    q, prev, seen, lvl := q0, prev0, seen0, lvl0;
    var v := Successors(g, u)[j].dest;
    if v !in seen {
      SeeTarget(g, s, t, q, prev, seen, lvl, expanded, u, j);
      ExpandDone(g, seen, seen + {v}, expanded, u, j);
      seen := seen + {v};
      lvl := lvl[v := lvl[u] + 1];
      prev := prev[v := u];
      q := q + [v];
    } else {
      ExpandDone(g, seen, seen, expanded, u, j);
    }
  }

  /** Taking the head u of the queue for expansion: the rest of the queue
      spans the levels of u and the next, and one more node is expanded. */
  lemma PopBfs(g: Graph, s: Node, t: Node, q: seq<Node>, prev: map<Node, Node>, seen: set<Node>,
               lvl: map<Node, nat>, expanded: set<Node>, cur: nat)
    requires |q| > 0 && q[0] != t
    requires BfsInv(g, s, t, q, prev, seen, lvl, expanded, cur) && ExpandedClosed(g, seen, expanded, t, [])
    ensures q[0] in lvl && q[0] !in expanded
    ensures BfsInv(g, s, t, q[1..], prev, seen, lvl, expanded + {q[0]}, lvl[q[0]])
    ensures ExpandedClosed(g, seen, expanded + {q[0]}, q[0], [])
    ensures |NodesOf(g) - (expanded + {q[0]})| < |NodesOf(g) - expanded|
  {
    var u := q[0];
    var e2 := expanded + {u};
    assert BfsKeys(g, s, t, prev, seen, lvl, e2);
    PopQueue(q, seen, lvl, expanded, cur);
    assert u in NodesOf(g);
    FewerLeft(NodesOf(g), expanded, e2);
  }

  lemma PopQueue(q: seq<Node>, seen: set<Node>, lvl: map<Node, nat>, expanded: set<Node>, cur: nat)
    requires |q| > 0 && BfsQueue(q, seen, lvl, expanded, cur)
    ensures BfsQueue(q[1..], seen, lvl, expanded + {q[0]}, lvl[q[0]])
  {
    var u, r := q[0], q[1..];
    assert forall i :: 0 <= i < |r| ==> r[i] == q[i + 1];
    forall v | v in seen && v !in expanded + {u}
      ensures v in r
    {
      var i :| 0 <= i < |q| && q[i] == v;
      assert r[i - 1] == v;
    }
  }

  /** Once u is expanded, every expanded node has its targets seen. */
  lemma ClosedAfterExpand(g: Graph, t: Node, seen: set<Node>, expanded: set<Node>, u: Node)
    requires t !in expanded && ExpandedClosed(g, seen, expanded, u, Successors(g, u))
    ensures ExpandedClosed(g, seen, expanded, t, [])
  {
  }

  /** Breadth-first search from s: stops when t reaches the head of the
      queue, and stops when the queue is empty; the path is read back from
      prev and costs its number of edges. */
  method Bfs(g: Graph, s: Node, t: Node) returns (r: SearchResult)
    requires s in g && t in g
    ensures r.Found? ==> IsPath(g, r.path) && r.path[0] == s && Last(r.path) == t && Distinct(r.path)
    ensures r.Found? ==> r.cost == (|r.path| - 1) as real
    ensures r.Found? ==> forall p :: IsPath(g, p) && p[0] == s && Last(p) == t ==> |r.path| <= |p|
    ensures r.NoPath? <==> !Reachable(g, s, t)
  {
    var q := [s];
    var prev: map<Node, Node> := map[];
    var seen := {s};
    ghost var lvl := map[s := 0];
    ghost var expanded: set<Node> := {};
    ghost var cur: nat := 0;
    BfsStart(g, s, t);
    while |q| > 0
      invariant BfsInv(g, s, t, q, prev, seen, lvl, expanded, cur)
      invariant ExpandedClosed(g, seen, expanded, t, [])
      decreases |NodesOf(g) - expanded|
    {
      if q[0] == t {
        break;
      }
      q, prev, seen, lvl, expanded, cur := BfsStep(g, s, t, q, prev, seen, lvl, expanded, cur);
    }
    r := ReadBfsPath(g, s, t, q, prev, seen, lvl, expanded, cur);
  }

  /** Pops the head u of the queue and expands it. */
  method BfsStep(g: Graph, s: Node, t: Node, q0: seq<Node>, prev0: map<Node, Node>, seen0: set<Node>,
                 ghost lvl0: map<Node, nat>, ghost expanded0: set<Node>, ghost cur0: nat)
    returns (q: seq<Node>, prev: map<Node, Node>, seen: set<Node>, ghost lvl: map<Node, nat>,
             ghost expanded: set<Node>, ghost cur: nat)
    requires |q0| > 0 && q0[0] != t
    requires BfsInv(g, s, t, q0, prev0, seen0, lvl0, expanded0, cur0) && ExpandedClosed(g, seen0, expanded0, t, [])
    ensures BfsInv(g, s, t, q, prev, seen, lvl, expanded, cur) && ExpandedClosed(g, seen, expanded, t, [])
    ensures |NodesOf(g) - expanded| < |NodesOf(g) - expanded0|
  {
    var u := q0[0];
    PopBfs(g, s, t, q0, prev0, seen0, lvl0, expanded0, cur0);
    cur := lvl0[u];
    expanded := expanded0 + {u};
    q, prev, seen, lvl := ExpandBfs(g, s, t, u, q0[1..], prev0, seen0, lvl0, expanded);
    ClosedAfterExpand(g, t, seen, expanded, u);
  }

  /** Reads the result off the state the breadth-first loop stops in: with t
      at the head of the queue, or with the queue empty. */
  method ReadBfsPath(g: Graph, s: Node, t: Node, q: seq<Node>, prev: map<Node, Node>, seen: set<Node>,
                     ghost lvl: map<Node, nat>, ghost expanded: set<Node>, ghost cur: nat)
    returns (r: SearchResult)
    requires BfsInv(g, s, t, q, prev, seen, lvl, expanded, cur) && ExpandedClosed(g, seen, expanded, t, [])
    requires |q| == 0 || q[0] == t
    ensures r.Found? ==> IsPath(g, r.path) && r.path[0] == s && Last(r.path) == t && Distinct(r.path)
    ensures r.Found? ==> r.cost == (|r.path| - 1) as real
    ensures r.Found? ==> forall p :: IsPath(g, p) && p[0] == s && Last(p) == t ==> |r.path| <= |p|
    ensures r.NoPath? <==> !Reachable(g, s, t)
  {
    var path := Reconstruct(prev, t, lvl);
    if |q| > 0 {
      BfsTreePath(g, s, t, q, prev, seen, lvl, expanded, cur, path);
    } else {
      BfsExhausted(g, s, t, q, prev, seen, lvl, expanded, cur);
      assert path == [t];
    }
    if path[0] != s {
      return NoPath;
    }
    r := Found(path, (|path| - 1) as real);
  }

  /** The search starts with s seen at level 0 and queued. */
  lemma BfsStart(g: Graph, s: Node, t: Node)
    requires s in g
    ensures BfsInv(g, s, t, [s], map[], {s}, map[s := 0], {}, 0)
    ensures ExpandedClosed(g, {s}, {}, t, [])
  {
    assert s in NodesOf(g);
  }

  /** An empty queue leaves the seen set closed under edges. */
  lemma BfsExhausted(g: Graph, s: Node, t: Node, q: seq<Node>, prev: map<Node, Node>, seen: set<Node>,
                     lvl: map<Node, nat>, expanded: set<Node>, cur: nat)
    requires BfsInv(g, s, t, q, prev, seen, lvl, expanded, cur) && ExpandedClosed(g, seen, expanded, t, [])
    requires |q| == 0
    ensures !Reachable(g, s, t) && t !in prev && s != t
  {
    assert seen == expanded;
    if Reachable(g, s, t) {
      ReachInClosedSet(g, seen, s, t);
    }
  }

  /** The path read back from a seen node starts at s, follows edges, and
      has one node per level, so no path from s to t is shorter. */
  lemma BfsTreePath(g: Graph, s: Node, t: Node, q: seq<Node>, prev: map<Node, Node>, seen: set<Node>,
                    lvl: map<Node, nat>, expanded: set<Node>, cur: nat, p: seq<Node>)
    requires BfsInv(g, s, t, q, prev, seen, lvl, expanded, cur) && t in seen && BackChain(prev, t, p)
    ensures p[0] == s && IsPath(g, p) && |p| == lvl[t] + 1
    ensures forall p' :: IsPath(g, p') && p'[0] == s && Last(p') == t ==> |p| <= |p'|
  {
    forall i | 0 <= i < |p|
      ensures p[i] in seen
    {
      if i < |p| - 1 {
        assert prev[p[i + 1]] == p[i];
      }
    }
    assert p[0] == s;
    var i := 0;
    while i < |p| - 1
      invariant 0 <= i < |p|
      invariant lvl[p[i]] == i
    {
      assert prev[p[i + 1]] == p[i];
      i := i + 1;
    }
    forall k | 0 <= k < |p| - 1
      ensures Step(g, p[k], p[k + 1])
    {
      assert prev[p[k + 1]] == p[k];
    }
  }
}

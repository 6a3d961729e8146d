/** The course catalog and the route maps built from it: the prerequisites
    and attributes tables (dictionaries kept in insertion order), the edges
    prerequisite -> course that both advisors add in nested loops, and the
    zero-cost virtual start node that joins all completed courses into one
    search start. */
module CourseGraph {
  import opened Wrappers
  import opened Text
  import opened Graph

  type Course = string

  /** A course's attribute dictionary; prerequisites_count and category are
      absent from the entry the hybrid advisor adds for the virtual start. */
  datatype Attributes = Attributes(difficulty: int, timeHours: nat, utility: int,
                                   prerequisitesCount: Option<int>, category: Option<string>)

  /** A dictionary from course names, in insertion order. */
  type Table<V> = seq<(Course, V)>

  predicate UniqueKeys<V>(t: Table<V>)
  {
    forall i, j :: 0 <= i < j < |t| ==> t[i].0 != t[j].0
  }

  function Keys<V>(t: Table<V>): (ks: set<Course>)
    ensures forall k :: k in ks <==> exists i :: 0 <= i < |t| && t[i].0 == k
  {
    set i | 0 <= i < |t| :: t[i].0
  }

  /** dict.get: the value stored under k. */
  function Lookup<V>(t: Table<V>, k: Course): (r: Option<V>)
    ensures r.None? <==> k !in Keys(t)
    ensures r.Some? ==> exists i :: 0 <= i < |t| && t[i] == (k, r.value)
  {
    if |t| == 0 then None
    else if t[0].0 == k then Some(t[0].1)
    else
      assert forall i :: 1 <= i < |t| ==> t[i] == t[1..][i - 1];
      Lookup(t[1..], k)
  }

  lemma LookupAt<V>(t: Table<V>, i: nat)
    requires UniqueKeys(t) && i < |t|
    ensures Lookup(t, t[i].0) == Some(t[i].1)
  {
    var r := Lookup(t, t[i].0);
    var j :| 0 <= j < |t| && t[j] == (t[i].0, r.value);
  }

  /** d[k] = v: the value is replaced in place, or a new entry is appended. */
  function Store<V>(t: Table<V>, k: Course, v: V): Table<V>
  {
    if |t| == 0 then [(k, v)]
    else if t[0].0 == k then [(k, v)] + t[1..]
    else [t[0]] + Store(t[1..], k, v)
  }

  /** After storing, k holds v and every other key keeps its value. */
  lemma {:induction false} StoreLookup<V>(t: Table<V>, k: Course, v: V, j: Course)
    ensures Lookup(Store(t, k, v), j) == if j == k then Some(v) else Lookup(t, j)
    decreases |t|
  {
    if |t| > 0 && t[0].0 != k {
      StoreLookup(t[1..], k, v, j);
      assert Store(t, k, v)[1..] == Store(t[1..], k, v);
    }
  }

  /** The two catalog dictionaries. */
  datatype Catalog = Catalog(prerequisites: Table<seq<Course>>, attributes: Table<Attributes>)

  predicate WellFormed(c: Catalog)
  {
    UniqueKeys(c.prerequisites) && UniqueKeys(c.attributes)
  }

  // ---------------------------------------------------------------------
  // Prerequisite edges

  /** The edges appended to u's list while the inner loop walks the
      prerequisite list ps of `course`: one per listing of u. */
  function Listing(course: Course, ps: seq<Course>, u: Course, weight: Course -> real): seq<Edge>
  {
    if |ps| == 0 then []
    else Listing(course, ps[..|ps| - 1], u, weight) + (if ps[|ps| - 1] == u then [Edge(course, weight(course))] else [])
  }

  /** The edges appended to u's list by the outer loop over the table. */
  function EdgesFrom(prereqs: Table<seq<Course>>, u: Course, weight: Course -> real): seq<Edge>
  {
    if |prereqs| == 0 then []
    else EdgesFrom(prereqs[..|prereqs| - 1], u, weight) +
         Listing(prereqs[|prereqs| - 1].0, prereqs[|prereqs| - 1].1, u, weight)
  }

  /** The inner loop: each prerequisite that is a key gets an edge to `course`. */
  method AddListing(g0: Graph, course: Course, ps: seq<Course>, weight: Course -> real) returns (g: Graph)
    ensures g.Keys == g0.Keys
    ensures forall u :: u in g ==> g[u] == g0[u] + Listing(course, ps, u, weight)
  {
    g := g0;
    for j := 0 to |ps|
      invariant g.Keys == g0.Keys
      invariant forall u :: u in g ==> g[u] == g0[u] + Listing(course, ps[..j], u, weight)
    {
      assert ps[..j + 1][..j] == ps[..j];
      var prereq := ps[j];
      if prereq in g {
        g := g[prereq := g[prereq] + [Edge(course, weight(course))]];
      }
    }
    assert ps[..|ps|] == ps;
  }

  /** Both graph builders' nested loops: for each course in table order and
      each of its listed prerequisites that is a key, an edge from the
      prerequisite to the course weighted by weight(course). */
  method AddPrerequisiteEdges(g0: Graph, prereqs: Table<seq<Course>>, weight: Course -> real) returns (g: Graph)
    ensures g.Keys == g0.Keys
    ensures forall u :: u in g ==> g[u] == g0[u] + EdgesFrom(prereqs, u, weight)
  {
    g := g0;
    for i := 0 to |prereqs|
      invariant g.Keys == g0.Keys
      invariant forall u :: u in g ==> g[u] == g0[u] + EdgesFrom(prereqs[..i], u, weight)
    {
      ghost var before := g;
      g := AddListing(g, prereqs[i].0, prereqs[i].1, weight);
      assert prereqs[..i + 1][..i] == prereqs[..i];
      forall u | u in g
        ensures g[u] == g0[u] + EdgesFrom(prereqs[..i + 1], u, weight)
      {
        assert g[u] == before[u] + Listing(prereqs[i].0, prereqs[i].1, u, weight);
      }
    }
    assert prereqs[..|prereqs|] == prereqs;
  }

  /** An edge is in a listing exactly when u is among ps and the edge goes
      to `course` with its weight. */
  lemma {:induction false} ListingEdges(course: Course, ps: seq<Course>, u: Course, weight: Course -> real, e: Edge)
    ensures e in Listing(course, ps, u, weight) <==> u in ps && e == Edge(course, weight(course))
    decreases |ps|
  {
    if |ps| > 0 {
      ListingEdges(course, ps[..|ps| - 1], u, weight, e);
      assert ps == ps[..|ps| - 1] + [ps[|ps| - 1]];
    }
  }

  /** The edges out of u go to the courses listing u as a prerequisite,
      each weighted by weight(course). */
  lemma {:induction false} EdgesFromEdges(prereqs: Table<seq<Course>>, u: Course, weight: Course -> real, e: Edge)
    ensures e in EdgesFrom(prereqs, u, weight) <==>
            (exists i :: 0 <= i < |prereqs| && u in prereqs[i].1 && e == Edge(prereqs[i].0, weight(prereqs[i].0)))
    decreases |prereqs|
  {
    if |prereqs| > 0 {
      var n := |prereqs| - 1;
      EdgesFromEdges(prereqs[..n], u, weight, e);
      ListingEdges(prereqs[n].0, prereqs[n].1, u, weight, e);
      if e in EdgesFrom(prereqs, u, weight) && e !in Listing(prereqs[n].0, prereqs[n].1, u, weight) {
        var i :| 0 <= i < n && u in prereqs[..n][i].1 && e == Edge(prereqs[..n][i].0, weight(prereqs[..n][i].0));
        assert prereqs[..n][i] == prereqs[i];
      }
      if exists i :: 0 <= i < |prereqs| && u in prereqs[i].1 && e == Edge(prereqs[i].0, weight(prereqs[i].0)) {
        var i :| 0 <= i < |prereqs| && u in prereqs[i].1 && e == Edge(prereqs[i].0, weight(prereqs[i].0));
        if i < n {
          assert prereqs[..n][i] == prereqs[i];
        }
      }
    }
  }

  /** The first course of the table with a prerequisite in the graph but no
      attributes, whose difficulty lookup raises KeyError. */
  function LackingAttributes(prereqs: Table<seq<Course>>, attributes: Table<Attributes>, keys: set<Course>): Option<Course>
  {
    if |prereqs| == 0 then None
    else if prereqs[0].0 !in Keys(attributes) && (exists p :: p in prereqs[0].1 && p in keys) then Some(prereqs[0].0)
    else LackingAttributes(prereqs[1..], attributes, keys)
  }

  /** Only a course without attributes can make the lookup fail. */
  lemma {:induction false} LackingIsMissing(prereqs: Table<seq<Course>>, attributes: Table<Attributes>, keys: set<Course>)
    ensures LackingAttributes(prereqs, attributes, keys).Some? ==>
      var c := LackingAttributes(prereqs, attributes, keys).value;
      c in Keys(prereqs) && c !in Keys(attributes)
    ensures (forall i :: 0 <= i < |prereqs| ==> prereqs[i].0 in Keys(attributes)) ==>
      LackingAttributes(prereqs, attributes, keys).None?
    decreases |prereqs|
  {
    if |prereqs| > 0 {
      LackingIsMissing(prereqs[1..], attributes, keys);
      assert forall i :: 1 <= i < |prereqs| ==> prereqs[1..][i - 1] == prereqs[i];
    }
  }

  /** When no course lacks attributes, every course listing a prerequisite
      among keys has attributes. */
  lemma {:induction false} NoneLacking(prereqs: Table<seq<Course>>, attributes: Table<Attributes>, keys: set<Course>,
                                       i: nat, p: Course)
    requires LackingAttributes(prereqs, attributes, keys).None?
    requires i < |prereqs| && p in prereqs[i].1 && p in keys
    ensures prereqs[i].0 in Keys(attributes)
    decreases |prereqs|
  {
    if i > 0 {
      assert prereqs[1..][i - 1] == prereqs[i];
      NoneLacking(prereqs[1..], attributes, keys, i - 1, p);
    }
  }

  /** Destinations of a list of edges, in order. */
  function Dests(es: seq<Edge>): (ds: seq<Node>)
    ensures |ds| == |es| && forall i :: 0 <= i < |es| ==> ds[i] == es[i].dest
  {
    seq(|es|, i requires 0 <= i < |es| => es[i].dest)
  }

  lemma DestsAppend(a: seq<Edge>, b: seq<Edge>)
    ensures Dests(a + b) == Dests(a) + Dests(b)
  {
  }

  /** A listing holds one edge to `course` per listing of u, and no other. */
  lemma {:induction false} ListingCount(course: Course, ps: seq<Course>, u: Course, weight: Course -> real)
    ensures multiset(Dests(Listing(course, ps, u, weight))) ==
            multiset{}[course := multiset(ps)[u]]
    decreases |ps|
  {
    if |ps| > 0 {
      var n := |ps| - 1;
      ListingCount(course, ps[..n], u, weight);
      ListingSnoc(course, ps, u, weight);
      CountSnoc(ps, u);
      OneMore(course, multiset(ps[..n])[u], ps[n] == u);
    }
  }

  /** The last listed prerequisite adds at most one destination. */
  lemma ListingSnoc(course: Course, ps: seq<Course>, u: Course, weight: Course -> real)
    requires |ps| > 0
    ensures multiset(Dests(Listing(course, ps, u, weight))) ==
            multiset(Dests(Listing(course, ps[..|ps| - 1], u, weight))) +
            (if ps[|ps| - 1] == u then multiset{course} else multiset{})
  {
    var init := Listing(course, ps[..|ps| - 1], u, weight);
    var tail := if ps[|ps| - 1] == u then [Edge(course, weight(course))] else [];
    DestsAppend(init, tail);
    assert Dests(tail) == if ps[|ps| - 1] == u then [course] else [];
  }

  /** Occurrences of u in a list: those before its last entry, plus one if
      the last entry is u. */
  lemma CountSnoc(ps: seq<Course>, u: Course)
    requires |ps| > 0
    ensures multiset(ps)[u] == multiset(ps[..|ps| - 1])[u] + (if ps[|ps| - 1] == u then 1 else 0)
  {
    assert ps == ps[..|ps| - 1] + [ps[|ps| - 1]];
  }

  /** One more edge to `course` raises its count by one. */
  lemma OneMore(course: Course, k: nat, more: bool)
    ensures multiset{}[course := k] + (if more then multiset{course} else multiset{}) ==
            multiset{}[course := k + (if more then 1 else 0)]
  {
  }

  /** With unique course names, the number of edges u -> v is the number
      of times u is listed among v's prerequisites. */
  lemma {:induction false} EdgesFromCount(prereqs: Table<seq<Course>>, u: Course, v: Course, weight: Course -> real)
    requires UniqueKeys(prereqs)
    ensures multiset(Dests(EdgesFrom(prereqs, u, weight)))[v] ==
            (match Lookup(prereqs, v) case Some(ps) => multiset(ps)[u] case None => 0)
    decreases |prereqs|
  {
    if |prereqs| > 0 {
      var n := |prereqs| - 1;
      var init, last := prereqs[..n], prereqs[n];
      assert UniqueKeys(init);
      EdgesFromCount(init, u, v, weight);
      var a, b := EdgesFrom(init, u, weight), Listing(last.0, last.1, u, weight);
      assert EdgesFrom(prereqs, u, weight) == a + b;
      ListingCount(last.0, last.1, u, weight);
      DestsAppend(a, b);
      assert multiset(Dests(a + b))[v] == multiset(Dests(a))[v] + multiset(Dests(b))[v];
      assert last.0 !in Keys(init);
      LookupSnoc(init, last);
      assert prereqs == init + [last];
    }
  }

  /** Looking up in a table extended by one entry with a new key. */
  lemma {:induction false} LookupSnoc<V>(t: Table<V>, entry: (Course, V))
    requires entry.0 !in Keys(t)
    ensures forall k :: Lookup(t + [entry], k) == if k == entry.0 then Some(entry.1) else Lookup(t, k)
    decreases |t|
  {
    if |t| > 0 {
      assert (t + [entry])[1..] == t[1..] + [entry];
      LookupSnoc(t[1..], entry);
    }
  }

  // ---------------------------------------------------------------------
  // The virtual start

  const VirtualStart: Course := "virtual_start"

  /** The zero-cost edges to the start courses that are keys of g, in input order. */
  function StartEdges(g: Graph, starts: seq<Course>): seq<Edge>
  {
    if |starts| == 0 then []
    else StartEdges(g, starts[..|starts| - 1]) +
         (if starts[|starts| - 1] in g then [Edge(starts[|starts| - 1], 0.0)] else [])
  }

  /** The route map with the virtual start added, as the advisors build it:
      the virtual start's list replaces any earlier one and holds an edge for
      each start course that is a key of the original map. */
  method AddVirtualStart(g: Graph, starts: seq<Course>) returns (r: Graph)
    ensures r == g[VirtualStart := StartEdges(g, starts)]
  {
    var edges: seq<Edge> := [];
    for i := 0 to |starts|
      invariant edges == StartEdges(g, starts[..i])
    {
      assert starts[..i + 1][..i] == starts[..i];
      if starts[i] in g {
        edges := edges + [Edge(starts[i], 0.0)];
      }
    }
    assert starts[..|starts|] == starts;
    r := g[VirtualStart := edges];
  }

  /** The virtual start's edges are the start courses present in g, each at cost 0. */
  lemma {:induction false} StartEdgesMembers(g: Graph, starts: seq<Course>, e: Edge)
    ensures e in StartEdges(g, starts) <==> e.dest in starts && e.dest in g && e.weight == 0.0
    decreases |starts|
  {
    if |starts| > 0 {
      var n := |starts| - 1;
      StartEdgesMembers(g, starts[..n], e);
      assert starts == starts[..n] + [starts[n]];
    }
  }

  /** The destinations, in order, are the start courses that are keys of g. */
  lemma {:induction false} StartEdgesOrder(g: Graph, starts: seq<Course>)
    ensures Dests(StartEdges(g, starts)) == Present(g, starts)
    decreases |starts|
  {
    if |starts| > 0 {
      var n := |starts| - 1;
      StartEdgesOrder(g, starts[..n]);
      var tail := if starts[n] in g then [Edge(starts[n], 0.0)] else [];
      DestsAppend(StartEdges(g, starts[..n]), tail);
    }
  }

  /** The start courses that are keys of g, in input order. */
  function Present(g: Graph, starts: seq<Course>): seq<Course>
  {
    if |starts| == 0 then []
    else Present(g, starts[..|starts| - 1]) + (if starts[|starts| - 1] in g then [starts[|starts| - 1]] else [])
  }

  /** Adding the virtual start keeps the map closed and its weights non-negative. */
  lemma VirtualStartClosed(g: Graph, starts: seq<Course>)
    ensures Closed(g) ==> Closed(g[VirtualStart := StartEdges(g, starts)])
    ensures NonNegative(g) ==> NonNegative(g[VirtualStart := StartEdges(g, starts)])
  {
    var r := g[VirtualStart := StartEdges(g, starts)];
    forall e: Edge | e in r[VirtualStart]
      ensures e.dest in g && e.weight == 0.0
    {
      StartEdgesMembers(g, starts, e);
    }
  }

  /** Python's [c for c in path if c != 'virtual_start']. */
  function WithoutVirtualStart(path: seq<Course>): (r: seq<Course>)
    ensures VirtualStart !in r
    ensures forall c :: c in r <==> c in path && c != VirtualStart
  {
    if |path| == 0 then []
    else (if path[0] == VirtualStart then [] else [path[0]]) + WithoutVirtualStart(path[1..])
  }

  lemma {:induction false} WithoutAbsent(path: seq<Course>)
    requires VirtualStart !in path
    ensures WithoutVirtualStart(path) == path
    decreases |path|
  {
    if |path| > 0 {
      WithoutAbsent(path[1..]);
    }
  }

  /** A route that starts at the virtual start and never returns to it loses
      exactly its first node. */
  lemma StripRoute(path: seq<Course>)
    requires |path| >= 1 && path[0] == VirtualStart && Distinct(path)
    ensures WithoutVirtualStart(path) == path[1..]
  {
    assert VirtualStart !in path[1..] by {
      forall i | 0 <= i < |path[1..]|
        ensures path[1..][i] != VirtualStart
      {
        assert path[1..][i] == path[i + 1];
      }
    }
    WithoutAbsent(path[1..]);
  }

  /** With no edge into the virtual start, a walk that leaves it takes one
      zero-cost step to a start course and then stays inside g. */
  lemma {:induction false} VirtualStartWalk(g: Graph, starts: seq<Course>, p: seq<Node>, ws: seq<real>)
    requires VirtualStart !in g && Closed(g)
    requires IsWalk(g[VirtualStart := StartEdges(g, starts)], p, ws) && p[0] == VirtualStart && |p| >= 2
    ensures p[1] in starts && p[1] in g && ws[0] == 0.0
    ensures IsWalk(g, p[1..], ws[1..]) && Sum(ws) == Sum(ws[1..])
  {
    var r := g[VirtualStart := StartEdges(g, starts)];
    assert HasEdge(r, p[0], p[1], ws[0]);
    StartEdgesMembers(g, starts, Edge(p[1], ws[0]));
    WalkSplit(r, p, ws, 1);
    assert Sum(ws[..1]) == ws[0] by {
      assert ws[..1][..0] == [];
    }
    var q, vs := p[1..], ws[1..];
    forall i | 0 <= i < |vs|
      ensures HasEdge(g, q[i], q[i + 1], vs[i])
    {
      InsideG(g, starts, q, vs, i);
    }
  }

  lemma {:induction false} InsideG(g: Graph, starts: seq<Course>, q: seq<Node>, vs: seq<real>, i: nat)
    requires VirtualStart !in g && Closed(g)
    requires IsWalk(g[VirtualStart := StartEdges(g, starts)], q, vs) && q[0] in g && i < |vs|
    ensures HasEdge(g, q[i], q[i + 1], vs[i]) && q[i + 1] in g
    decreases i
  {
    var r := g[VirtualStart := StartEdges(g, starts)];
    if i > 0 {
      InsideG(g, starts, q, vs, i - 1);
    }
    assert q[i] in g;
    assert HasEdge(r, q[i], q[i + 1], vs[i]);
    assert Edge(q[i + 1], vs[i]) in g[q[i]];
  }

  /** Every walk of g is a walk of the map with the virtual start added. */
  lemma WalkKept(g: Graph, starts: seq<Course>, p: seq<Node>, ws: seq<real>)
    requires VirtualStart !in g && IsWalk(g, p, ws)
    ensures IsWalk(g[VirtualStart := StartEdges(g, starts)], p, ws)
  {
    var r := g[VirtualStart := StartEdges(g, starts)];
    forall i | 0 <= i < |ws|
      ensures HasEdge(r, p[i], p[i + 1], ws[i])
    {
      assert HasEdge(g, p[i], p[i + 1], ws[i]);
    }
  }

  /** Multi-source search: in a closed map without a virtual start of its
      own, the goal is reachable from the virtual start exactly when it is
      the virtual start or is reachable from some start course in the map. */
  lemma VirtualStartReach(g: Graph, starts: seq<Course>, t: Node)
    requires VirtualStart !in g && Closed(g)
    ensures Reachable(g[VirtualStart := StartEdges(g, starts)], VirtualStart, t) <==>
            t == VirtualStart || exists s :: s in starts && s in g && Reachable(g, s, t)
  {
    var r := g[VirtualStart := StartEdges(g, starts)];
    if Reachable(r, VirtualStart, t) && t != VirtualStart {
      ReachFromStart(g, starts, t);
    }
    if t == VirtualStart {
      assert IsPath(r, [VirtualStart]);
    }
    if exists s :: s in starts && s in g && Reachable(g, s, t) {
      var s :| s in starts && s in g && Reachable(g, s, t);
      ReachThroughStart(g, starts, s, t);
    }
  }

  lemma ReachFromStart(g: Graph, starts: seq<Course>, t: Node)
    requires VirtualStart !in g && Closed(g) && t != VirtualStart
    requires Reachable(g[VirtualStart := StartEdges(g, starts)], VirtualStart, t)
    ensures exists s :: s in starts && s in g && Reachable(g, s, t)
  {
    var r := g[VirtualStart := StartEdges(g, starts)];
    var p :| IsPath(r, p) && p[0] == VirtualStart && Last(p) == t;
    var ws := PathHasWeights(r, p);
    VirtualStartWalk(g, starts, p, ws);
    WalkIsPath(g, p[1..], ws[1..]);
    assert Last(p[1..]) == t;
  }

  lemma ReachThroughStart(g: Graph, starts: seq<Course>, s: Node, t: Node)
    requires VirtualStart !in g && s in starts && s in g && Reachable(g, s, t)
    ensures Reachable(g[VirtualStart := StartEdges(g, starts)], VirtualStart, t)
  {
    var r := g[VirtualStart := StartEdges(g, starts)];
    var p :| IsPath(g, p) && p[0] == s && Last(p) == t;
    var ws := PathHasWeights(g, p);
    WalkKept(g, starts, p, ws);
    StartEdgesMembers(g, starts, Edge(s, 0.0));
    var q, vs := [VirtualStart] + p, [0.0] + ws;
    forall i | 0 <= i < |vs|
      ensures HasEdge(r, q[i], q[i + 1], vs[i])
    {
      if i > 0 {
        assert q[i] == p[i - 1] && q[i + 1] == p[i] && vs[i] == ws[i - 1];
      }
    }
    WalkIsPath(r, q, vs);
    assert Last(q) == t;
  }
}

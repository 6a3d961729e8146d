/** The lists of routes the goal-based agent hands out, and what its search
    for alternative routes promises about them: which detours around the
    first route it lists, and that it lists nothing else. */
module RouteLists {
  import opened Wrappers
  import opened Text
  import opened Graph
  import opened PathSearch

  /** A route with its cost, as find_all_paths lists them. */
  datatype Candidate = Candidate(path: seq<Node>, cost: real)

  /** A cost within the bound; None is the default bound, infinity. */
  predicate WithinMax(c: real, maxCost: Option<real>)
  {
    maxCost.None? || c <= maxCost.value
  }

  /** The text a candidate is de-duplicated by. */
  function Key(c: Candidate): string
  {
    Join(c.path, Arrow)
  }

  predicate PathIn(p: seq<Node>, cs: seq<Candidate>)
  {
    exists i :: 0 <= i < |cs| && cs[i].path == p
  }

  /** Costs never decrease along the list. */
  predicate SortedByCost(cs: seq<Candidate>)
  {
    forall i, j :: 0 <= i < j < |cs| ==> cs[i].cost <= cs[j].cost
  }

  /** No two entries share their joined text. */
  predicate DistinctKeys(cs: seq<Candidate>)
  {
    forall i, j :: 0 <= i < j < |cs| ==> Key(cs[i]) != Key(cs[j])
  }

  /** Every entry is a route of g within the bound. */
  ghost predicate AllRoutes(g: Graph, s: Node, t: Node, cs: seq<Candidate>, maxCost: Option<real>)
  {
    forall i :: 0 <= i < |cs| ==> Route(g, s, t, cs[i].path, cs[i].cost) && WithinMax(cs[i].cost, maxCost)
  }

  /** No walk from s to t costs at most the bound. */
  ghost predicate NoneWithin(g: Graph, s: Node, t: Node, maxCost: Option<real>)
  {
    forall p, ws {:trigger IsWalk(g, p, ws)} :: IsWalk(g, p, ws) && p[0] == s && Last(p) == t ==> !WithinMax(Sum(ws), maxCost)
  }

  /** What find_all_paths keeps from one Dijkstra run on a map h: a route of
      h within the bound, a cheapest one when h has no negative weight; or
      None, and then a non-negative h has no walk within the bound. */
  ghost predicate DetourOf(h: Graph, s: Node, t: Node, maxCost: Option<real>, d: Option<Candidate>)
  {
    match d
    case Some(c) =>
      Route(h, s, t, c.path, c.cost) && WithinMax(c.cost, maxCost) && (NonNegative(h) ==> Cheapest(h, s, t, c.cost))
    case None => NonNegative(h) ==> NoneWithin(h, s, t, maxCost)
  }

  /** Some entry of cs has the joined text of the node list p. */
  predicate Listed(p: seq<Node>, cs: seq<Candidate>)
  {
    exists j :: 0 <= j < |cs| && Key(cs[j]) == Join(p, Arrow)
  }

  /** ed[j] is what Dijkstra finds on the map without the j-th step of sp. */
  ghost predicate EdgeDetours(g: Graph, s: Node, t: Node, sp: seq<Node>, maxCost: Option<real>, ed: seq<Option<Candidate>>)
  {
    |ed| <= |sp| - 1 &&
    forall j :: 0 <= j < |ed| ==> DetourOf(RemoveEdge(g, sp[j], sp[j + 1]), s, t, maxCost, ed[j])
  }

  /** nd[j] is what Dijkstra finds on the map with sp[j + 1] cut out. */
  ghost predicate NodeDetours(g: Graph, s: Node, t: Node, sp: seq<Node>, maxCost: Option<real>, nd: seq<Option<Candidate>>)
  {
    |nd| <= (if |sp| < 2 then 0 else |sp| - 2) &&
    forall j :: 0 <= j < |nd| ==> DetourOf(RemoveNode(g, sp[j + 1]), s, t, maxCost, nd[j])
  }

  /** cs is the list find_all_paths builds around the first route `best`:
      ed[i] is what Dijkstra finds with the i-th step of best.path removed
      and nd[k] what it finds with the interior node best.path[k + 1] cut
      out; every such detour found within the bound is listed by its joined
      text, and cs lists nothing but best and these detours. */
  ghost predicate Enumerates(g: Graph, s: Node, t: Node, maxCost: Option<real>, cs: seq<Candidate>,
                             best: Candidate, ed: seq<Option<Candidate>>, nd: seq<Option<Candidate>>)
  {
    var sp := best.path;
    DetourOf(g, s, t, maxCost, Some(best)) && best in cs &&
    |ed| == |sp| - 1 && EdgeDetours(g, s, t, sp, maxCost, ed) &&
    |nd| == (if |sp| < 2 then 0 else |sp| - 2) && NodeDetours(g, s, t, sp, maxCost, nd) &&
    (forall i :: 0 <= i < |ed| && ed[i].Some? ==> Listed(ed[i].value.path, cs)) &&
    (forall k :: 0 <= k < |nd| && nd[k].Some? ==> Listed(nd[k].value.path, cs)) &&
    (forall x :: x in cs ==> x == best || Some(x) in ed || Some(x) in nd)
  }

  /** The list find_all_paths returns: empty when the first Dijkstra run
      finds nothing within the bound, otherwise an enumeration around the
      route it finds. */
  ghost predicate AllPaths(g: Graph, s: Node, t: Node, maxCost: Option<real>, cs: seq<Candidate>)
  {
    if cs == [] then DetourOf(g, s, t, maxCost, None)
    else exists best, ed, nd :: Enumerates(g, s, t, maxCost, cs, best, ed, nd)
  }

  /** Everything find_all_paths promises about the list it returns for the
      bound: the enumeration above, routes of g within the bound only,
      sorted by cost, one per joined text; on a map without negative weights
      the head is a cheapest route and an empty list means no walk is within
      the bound. */
  ghost predicate AlternativesWithin(g: Graph, s: Node, t: Node, maxCost: Option<real>, cs: seq<Candidate>)
  {
    AllPaths(g, s, t, maxCost, cs) && AllRoutes(g, s, t, cs, maxCost) &&
    SortedByCost(cs) && DistinctKeys(cs) &&
    (NonNegative(g) && cs == [] ==> NoneWithin(g, s, t, maxCost)) &&
    (NonNegative(g) && cs != [] ==> Cheapest(g, s, t, cs[0].cost))
  }
}

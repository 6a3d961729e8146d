/** The hybrid agent: the goal-based agent proposes up to three routes, each
    route becomes an action with a success and a complication outcome, the
    utility-based agent picks one by maximum expected utility, and the
    winning route is read back out of the action's name. The hybrid advisor
    runs it on the course graph from a virtual start. */
module Hybrid {
  import opened Wrappers
  import opened Text
  import opened Graph
  import opened PathSearch
  import opened GoalAgent
  import opened RouteLists
  import opened CourseGraph
  import UA = UtilityAgent

  /** The path_evaluation_factors dictionary; either key may be absent. */
  datatype Factors = Factors(lengthFactor: Option<real>, nodePenalties: Option<map<Node, real>>)

  /** The dictionary is non-empty, so the success utility gets adjusted. */
  predicate HasFactors(f: Factors)
  {
    f.lengthFactor.Some? || f.nodePenalties.Some?
  }

  // ---------------------------------------------------------------------
  // Evaluation factors

  /** The penalties of the path's node occurrences that have one, added in order. */
  function PenaltySum(path: seq<Node>, m: map<Node, real>): real
  {
    if |path| == 0 then 0.0
    else PenaltySum(path[..|path| - 1], m) + (if path[|path| - 1] in m then m[path[|path| - 1]] else 0.0)
  }

  /** The base utility with the length penalty and the node penalties added. */
  function Adjusted(base: real, path: seq<Node>, f: Factors): real
  {
    base + (if f.lengthFactor.Some? then |path| as real * f.lengthFactor.value else 0.0)
         + (if f.nodePenalties.Some? then PenaltySum(path, f.nodePenalties.value) else 0.0)
  }

  /** How often n occurs in the path. */
  function Occurrences(path: seq<Node>, n: Node): nat
  {
    if |path| == 0 then 0
    else Occurrences(path[..|path| - 1], n) + (if path[|path| - 1] == n then 1 else 0)
  }

  lemma ScaleStep(k: nat, v: real)
    ensures (k + 1) as real * v == k as real * v + v
  {
  }

  /** A single penalised node is charged once per occurrence. */
  lemma {:induction false} PenaltyPerOccurrence(path: seq<Node>, n: Node, v: real)
    ensures PenaltySum(path, map[n := v]) == Occurrences(path, n) as real * v
    decreases |path|
  {
    if |path| > 0 {
      PenaltyPerOccurrence(path[..|path| - 1], n, v);
      ScaleStep(Occurrences(path[..|path| - 1], n), v);
    }
  }

  /** Nodes of the path that have no penalty add nothing. */
  lemma {:induction false} PenaltyNoneListed(path: seq<Node>, m: map<Node, real>)
    requires forall i :: 0 <= i < |path| ==> path[i] !in m
    ensures PenaltySum(path, m) == 0.0
    decreases |path|
  {
    if |path| > 0 {
      PenaltyNoneListed(path[..|path| - 1], m);
    }
  }

  /** A penalty for a node off the path changes nothing. */
  lemma {:induction false} PenaltyOffPath(path: seq<Node>, m: map<Node, real>, n: Node, v: real)
    requires n !in path
    ensures PenaltySum(path, m[n := v]) == PenaltySum(path, m)
    decreases |path|
  {
    if |path| > 0 {
      var k := |path| - 1;
      assert path == path[..k] + [path[k]];
      PenaltyOffPath(path[..k], m, n, v);
    }
  }

  /** With neither factor present the utility is unchanged. */
  lemma AdjustedWithoutFactors(base: real, path: seq<Node>, f: Factors)
    requires !HasFactors(f)
    ensures Adjusted(base, path, f) == base
  {
  }

  // ---------------------------------------------------------------------
  // Paths as actions

  /** max(len(path) - 1, 1). */
  function HopCount(path: seq<Node>): nat
  {
    if |path| - 1 >= 1 then |path| - 1 else 1
  }

  /** min(0.1 + 0.02 * (hops - 1), 0.4): longer paths are likelier to run into trouble. */
  function ComplicationProbability(path: seq<Node>): (q: real)
    ensures 0.1 <= q <= 0.4
  {
    var c := 0.1 + 0.02 * (HopCount(path) - 1) as real;
    if c <= 0.4 then c else 0.4
  }

  /** max(1 - q, 0), which never needs the floor since q is at most 0.4. */
  function SuccessProbability(path: seq<Node>): (p: real)
    ensures p + ComplicationProbability(path) == 1.0
    ensures 0.6 <= p <= 0.9
  {
    var q := ComplicationProbability(path);
    if 1.0 - q >= 0.0 then 1.0 - q else 0.0
  }

  /** The key of path number i + 1 in the actions dictionary. */
  function ActionName(i: nat, path: seq<Node>): string
  {
    "Path_" + NatToString(i + 1) + "_(" + Join(path, Arrow) + ")"
  }

  /** The success utility: minus the cost, adjusted when there are factors. */
  function SuccessUtility(c: Candidate, f: Factors): real
  {
    if HasFactors(f) then Adjusted(-c.cost, c.path, f) else -c.cost
  }

  /** The action for path number i + 1: success with the (adjusted) negated
      cost, complication with one and a half times the unadjusted negated cost. */
  function PathAction(i: nat, c: Candidate, f: Factors): UA.Action
  {
    UA.Action(ActionName(i, c.path),
              [UA.Outcome(SuccessProbability(c.path), SuccessUtility(c, f)),
               UA.Outcome(ComplicationProbability(c.path), -c.cost * 1.5)])
  }

  function PathActions(paths: seq<Candidate>, f: Factors): (acts: seq<UA.Action>)
    ensures |acts| == |paths|
  {
    seq(|paths|, i requires 0 <= i < |paths| => PathAction(i, paths[i], f))
  }

  /** The outcome dictionaries as the agent receives them, both keys present. */
  function Raw(a: UA.Action): UA.RawAction
  {
    UA.RawAction(a.name, seq(|a.outcomes|, k requires 0 <= k < |a.outcomes| =>
      UA.RawOutcome(Some(a.outcomes[k].probability), Some(a.outcomes[k].utility))))
  }

  /** Validation reads back exactly the action that was written out. */
  lemma ChecksToRaw(a: UA.Action, b: UA.Action)
    requires UA.ChecksTo(Raw(a), b)
    ensures b == a
  {
    assert b.outcomes == a.outcomes by {
      forall k | 0 <= k < |a.outcomes|
        ensures b.outcomes[k] == a.outcomes[k]
      {
        assert UA.OutcomeOk(Raw(a).outcomes[k]) && b.outcomes[k] == UA.Checked(Raw(a).outcomes[k]);
      }
    }
  }

  /** Every path action passes the agent's validation. */
  lemma PathActionOk(i: nat, c: Candidate, f: Factors)
    ensures UA.ActionOk(Raw(PathAction(i, c, f)))
  {
    var ra := Raw(PathAction(i, c, f));
    assert ra.outcomes[0] == UA.RawOutcome(Some(SuccessProbability(c.path)), Some(SuccessUtility(c, f)));
    assert ra.outcomes[1] == UA.RawOutcome(Some(ComplicationProbability(c.path)), Some(-c.cost * 1.5));
  }

  /** Two digit runs of different lengths, each followed by '_', never
      start equal texts. */
  lemma DigitRunsDiffer(d1: string, r1: string, d2: string, r2: string)
    requires forall k :: 0 <= k < |d2| ==> IsDigit(d2[k])
    requires |d1| < |d2| && |r1| > 0 && r1[0] == '_'
    ensures d1 + r1 != d2 + r2
  {
    assert (d1 + r1)[|d1|] == '_';
    assert (d2 + r2)[|d1|] == d2[|d1|];
  }

  /** Texts with different prefixes of the same length differ. */
  lemma PrefixesDiffer(d1: string, r1: string, d2: string, r2: string)
    requires |d1| == |d2| && d1 != d2
    ensures d1 + r1 != d2 + r2
  {
    assert (d1 + r1)[..|d1|] == d1;
    assert (d2 + r2)[..|d2|] == d2;
  }

  /** Distinct positions give distinct names, so the dictionary keeps every path. */
  lemma ActionNamesDistinct(i: nat, j: nat, p: seq<Node>, q: seq<Node>)
    requires i != j
    ensures ActionName(i, p) != ActionName(j, q)
  {
    var ri, rj := "_(" + Join(p, Arrow) + ")", "_(" + Join(q, Arrow) + ")";
    assert ActionName(i, p) == "Path_" + (NatToString(i + 1) + ri);
    assert ActionName(j, q) == "Path_" + (NatToString(j + 1) + rj);
    PositionsDiffer(i, j, ri, rj);
    TailsDiffer("Path_", NatToString(i + 1) + ri, NatToString(j + 1) + rj);
  }

  /** The digits of two distinct positions, each followed by '_', differ. */
  lemma PositionsDiffer(i: nat, j: nat, ri: string, rj: string)
    requires i != j && |ri| > 0 && ri[0] == '_' && |rj| > 0 && rj[0] == '_'
    ensures NatToString(i + 1) + ri != NatToString(j + 1) + rj
  {
    var di, dj := NatToString(i + 1), NatToString(j + 1);
    if |di| < |dj| {
      DigitRunsDiffer(di, ri, dj, rj);
    } else if |dj| < |di| {
      DigitRunsDiffer(dj, rj, di, ri);
    } else if di != dj {
      PrefixesDiffer(di, ri, dj, rj);
    } else {
      NatToStringInjective(i + 1, j + 1);
    }
  }

  /** One text put before two different texts keeps them different. */
  lemma TailsDiffer(a: string, x: string, y: string)
    requires x != y
    ensures a + x != a + y
  {
    assert (a + x)[|a|..] == x;
    assert (a + y)[|a|..] == y;
  }

  /** The expected utility of a path action; without factors it is the
      negated cost scaled up by half the complication probability. */
  lemma {:induction false} PathUtility(i: nat, c: Candidate, f: Factors)
    ensures UA.ExpectedUtility(PathAction(i, c, f).outcomes, None) ==
            SuccessProbability(c.path) * SuccessUtility(c, f) + ComplicationProbability(c.path) * (-c.cost * 1.5)
    ensures !HasFactors(f) ==>
            UA.ExpectedUtility(PathAction(i, c, f).outcomes, None) == -c.cost * (1.0 + 0.5 * ComplicationProbability(c.path))
  {
    var os := PathAction(i, c, f).outcomes;
    assert os[..1][..0] == [] && os[..2] == os;
    assert UA.ExpectedUtility(os[..1], None) == SuccessProbability(c.path) * SuccessUtility(c, f);
  }

  /** Without factors, of two paths with the same number of hops the
      cheaper one has the higher expected utility. */
  lemma {:induction false} CheaperPreferred(i: nat, j: nat, c1: Candidate, c2: Candidate, f: Factors)
    requires !HasFactors(f) && HopCount(c1.path) == HopCount(c2.path) && c1.cost < c2.cost
    ensures UA.ExpectedUtility(PathAction(i, c1, f).outcomes, None) > UA.ExpectedUtility(PathAction(j, c2, f).outcomes, None)
  {
    PathUtility(i, c1, f);
    PathUtility(j, c2, f);
    ScaledOrder(c1.cost, c2.cost, 1.0 + 0.5 * ComplicationProbability(c1.path),
      UA.ExpectedUtility(PathAction(i, c1, f).outcomes, None), UA.ExpectedUtility(PathAction(j, c2, f).outcomes, None));
  }

  lemma {:induction false} ScaledOrder(x: real, y: real, k: real, u: real, v: real)
    requires x < y && k > 0.0 && u == -x * k && v == -y * k
    ensures u > v
  {
    assert (y - x) * k > 0.0;
  }

  // ---------------------------------------------------------------------
  // Reading the chosen path back

  /** The regular expression \((.*)\) on the name, then split on " -> ";
      the whole name is split when there is no match. */
  function ParseActionName(name: string): seq<Node>
  {
    match ParenGroup(name)
    case Some(inner) => Split(inner, Arrow)
    case None => Split(name, Arrow)
  }

  /** A node name that survives being written into an action name and read back. */
  predicate NodeNameOk(n: Node)
  {
    SafeName(n) && '\n' !in n
  }

  /** The round trip: the name of a non-empty path of well-behaved node
      names parses back to the path. */
  lemma ActionNameReadsBack(i: nat, path: seq<Node>)
    requires |path| >= 1 && forall k :: 0 <= k < |path| ==> NodeNameOk(path[k])
    ensures ParseActionName(ActionName(i, path)) == path
  {
    var digits := NatToString(i + 1);
    var head := "Path_" + digits + "_";
    var body := Join(path, Arrow);
    assert ActionName(i, path) == head + "(" + body + ")";
    forall j | 0 <= j < |head|
      ensures head[j] != '('
    {
      if 5 <= j < 5 + |digits| {
        assert head[j] == digits[j - 5];
      }
    }
    JoinAvoids(path, Arrow, '\n');
    ParenGroupOfWrapped(head, body);
    SplitJoin(path);
  }

  // ---------------------------------------------------------------------
  // The hybrid agent

  /** What evaluate_paths_with_utility returns; a best utility of None
      stands for minus infinity. */
  datatype Evaluation = Evaluation(bestPath: string, bestUtility: Option<real>,
                                   allPathsEvaluation: seq<UA.Action>, decisionInfo: UA.Info)

  /** What make_decision returns; NoPathFound carries best_path None and
      best_utility minus infinity. */
  datatype HybridDecision =
    | NoPathFound(message: string)
    | Chosen(bestPath: string, pathAsList: seq<Node>, bestUtility: real,
             allEvaluatedPaths: seq<UA.Action>, decisionInfo: UA.Info, numPathsConsidered: nat)

  /** d is the maximum-expected-utility choice among the actions of the paths. */
  ghost predicate ChosenFrom(d: HybridDecision, paths: seq<Candidate>, f: Factors)
    requires d.Chosen?
  {
    var acts := PathActions(paths, f);
    var vals := UA.MeuValues(acts, None);
    d.numPathsConsidered == |paths| && d.allEvaluatedPaths == acts &&
    UA.ChoiceOf(acts, vals, d.bestPath, d.bestUtility) &&
    d.decisionInfo == UA.MeuInfo("Maximum Expected Utility", vals, vals) &&
    d.pathAsList == ParseActionName(d.bestPath)
  }

  /** d is make_decision's result on the route map g from s to t under the
      factors f: all is find_all_paths' enumeration, its first three routes
      are the ones considered, and d is no path exactly when there are none,
      otherwise the maximum-expected-utility choice among them. */
  ghost predicate DecidedOn(g: Graph, s: Node, t: Node, f: Factors, d: HybridDecision, all: seq<Candidate>)
  {
    AllPaths(g, s, t, None, all) &&
    (d.NoPathFound? <==> Considered(all) == []) &&
    (d.Chosen? ==> ChosenFrom(d, Considered(all), f))
  }

  /** The routes make_decision considers: the first three of the enumeration. */
  function Considered(all: seq<Candidate>): (paths: seq<Candidate>)
    ensures |paths| <= 3 && |paths| <= |all| && (paths == [] <==> all == [])
    ensures forall i :: 0 <= i < |paths| ==> paths[i] == all[i]
  {
    all[..if |all| < 3 then |all| else 3]
  }

  /** Every node of every path is well-behaved. */
  predicate NamesOk(paths: seq<Candidate>)
  {
    forall i, k :: 0 <= i < |paths| && 0 <= k < |paths[i].path| ==> NodeNameOk(paths[i].path[k])
  }

  /** The chosen path is one of the candidates, read back intact, and no
      candidate has a higher expected utility. */
  lemma ChosenReadsBack(d: HybridDecision, paths: seq<Candidate>, f: Factors)
    requires d.Chosen? && ChosenFrom(d, paths, f)
    requires NamesOk(paths) && forall i :: 0 <= i < |paths| ==> |paths[i].path| >= 1
    ensures exists i :: 0 <= i < |paths| && d.bestPath == ActionName(i, paths[i].path) && d.pathAsList == paths[i].path
    ensures forall i :: 0 <= i < |paths| ==> UA.ExpectedUtility(PathAction(i, paths[i], f).outcomes, None) <= d.bestUtility
  {
    var acts := PathActions(paths, f);
    var vals := UA.MeuValues(acts, None);
    var i :| UA.IsFirstMax(vals, i) && i < |acts| && acts[i].name == d.bestPath && d.bestUtility == vals[i];
    assert acts[i] == PathAction(i, paths[i], f);
    ActionNameReadsBack(i, paths[i].path);
    forall j | 0 <= j < |paths|
      ensures UA.ExpectedUtility(PathAction(j, paths[j], f).outcomes, None) <= d.bestUtility
    {
      assert vals[j] <= vals[i];
      assert acts[j] == PathAction(j, paths[j], f);
    }
  }

  /** A route witnesses reachability. */
  lemma RouteReachable(g: Graph, s: Node, t: Node, p: seq<Node>, c: real)
    requires Route(g, s, t, p, c)
    ensures Reachable(g, s, t)
  {
    var ws :| IsWalk(g, p, ws) && Sum(ws) == c;
    WalkIsPath(g, p, ws);
  }

  /** With no bound on the cost, finding nothing means there is no path. */
  lemma NoneWithinUnbounded(g: Graph, s: Node, t: Node)
    requires NoneWithin(g, s, t, None)
    ensures !Reachable(g, s, t)
  {
    if Reachable(g, s, t) {
      var p :| IsPath(g, p) && p[0] == s && Last(p) == t;
      var ws := PathHasWeights(g, p);
    }
  }

  function Max0(n: int): nat
  {
    if n > 0 then n else 0
  }

  class HybridAgent {
    const routes: Graph
    const start: Node
    const goal: Node
    const factors: Factors
    /** The paths of the last successful find_multiple_paths. */
    var bestPaths: seq<Candidate>

    constructor (routes: Graph, start: Node, goal: Node, factors: Factors)
      ensures this.routes == routes && this.start == start && this.goal == goal && this.factors == factors
      ensures bestPaths == []
    {
      this.routes := routes;
      this.start := start;
      this.goal := goal;
      this.factors := factors;
      bestPaths := [];
    }

    /** The routes the last search kept: at most `bound` of them, from start to
        goal, cheapest first, none listed twice, and none missed when the map
        has a route, the bound allows one and weights are non-negative. */
    ghost predicate GoodPaths(paths: seq<Candidate>, bound: nat)
    {
      |paths| <= bound && AllRoutes(routes, start, goal, paths, None) &&
      SortedByCost(paths) && DistinctKeys(paths) &&
      (NonNegative(routes) && bound >= 1 ==> (paths != [] <==> Reachable(routes, start, goal))) &&
      (NonNegative(routes) && paths != [] ==> Cheapest(routes, start, goal, paths[0].cost))
    }

    /** find_multiple_paths: the goal-based agent's alternatives cut to the
        first max(numPaths, 0), kept in bestPaths. Construction of the
        goal-based agent fails for a missing start or goal, and Dijkstra's
        search for a dangling edge target. */
    method FindMultiplePaths(numPaths: int) returns (r: Result<seq<Candidate>, AgentError>, ghost all: seq<Candidate>)
      modifies this
      ensures start !in routes ==> r == Err(StartNotInRoutes(start))
      ensures start in routes && goal !in routes ==> r == Err(GoalNotInRoutes(goal))
      ensures Closed(routes) && start in routes && goal in routes ==> r.Ok?
      ensures r.Err? ==> bestPaths == old(bestPaths) && (r.error.KeyMissing? ==> r.error.key !in routes)
      ensures r.Err? ==> r.error.StartNotInRoutes? || r.error.GoalNotInRoutes? || r.error.KeyMissing?
      ensures r.Ok? ==> bestPaths == r.value && GoodPaths(r.value, Max0(numPaths))
      ensures r.Ok? ==> AllPaths(routes, start, goal, None, all) &&
                        r.value == all[..if Max0(numPaths) <= |all| then Max0(numPaths) else |all|]
    {
      all := [];
      var agent := NewAgent(routes, start, goal, None, DijkstraSearch);
      if agent.Err? {
        return Err(agent.error), all;
      }
      var found := FindAllPaths(routes, start, goal, None);
      if found.Err? {
        return Err(KeyMissing(found.error.node)), all;
      }
      all := found.value;
      var paths := found.value;
      var n := if Max0(numPaths) <= |paths| then Max0(numPaths) else |paths|;
      var trimmed := paths[..n];
      PrefixKeeps(paths, n);
      if paths == [] && NonNegative(routes) {
        NoneWithinUnbounded(routes, start, goal);
      }
      if trimmed != [] {
        RouteReachable(routes, start, goal, trimmed[0].path, trimmed[0].cost);
      }
      bestPaths := trimmed;
      r := Ok(trimmed);
    }

    /** A prefix of the alternatives keeps their properties. */
    lemma PrefixKeeps(all: seq<Candidate>, n: nat)
      requires n <= |all| && AllRoutes(routes, start, goal, all, None) && SortedByCost(all) && DistinctKeys(all)
      ensures AllRoutes(routes, start, goal, all[..n], None) && SortedByCost(all[..n]) && DistinctKeys(all[..n])
      ensures n > 0 ==> all[..n][0] == all[0]
    {
      assert forall i :: 0 <= i < n ==> all[..n][i] == all[i];
    }

    /** _apply_evaluation_factors: the length penalty, then each path node's penalty. */
    method ApplyEvaluationFactors(base: real, path: seq<Node>) returns (adjusted: real)
      ensures adjusted == Adjusted(base, path, factors)
    {
      adjusted := base;
      if factors.lengthFactor.Some? {
        adjusted := adjusted + |path| as real * factors.lengthFactor.value;
      }
      if factors.nodePenalties.Some? {
        var penalties := factors.nodePenalties.value;
        ghost var before := adjusted;
        for k := 0 to |path|
          invariant adjusted == before + PenaltySum(path[..k], penalties)
        {
          assert path[..k + 1][..k] == path[..k];
          if path[k] in penalties {
            adjusted := adjusted + penalties[path[k]];
          }
        }
        assert path[..|path|] == path;
      }
    }

    /** The outcome dictionaries of path number i + 1, as the loop writes them. */
    method PathOutcomes(i: nat, c: Candidate) returns (ra: UA.RawAction)
      ensures ra == Raw(PathAction(i, c, factors))
    {
      var name := "Path_" + NatToString(i + 1) + "_(" + Join(c.path, Arrow) + ")";
      var complication := ComplicationProbability(c.path);
      var success := if 1.0 - complication >= 0.0 then 1.0 - complication else 0.0;
      var base := -c.cost;
      var outcomes := [UA.RawOutcome(Some(success), Some(base)), UA.RawOutcome(Some(complication), Some(base * 1.5))];
      if HasFactors(factors) {
        var adjusted := ApplyEvaluationFactors(outcomes[0].utility.value, c.path);
        outcomes := outcomes[0 := UA.RawOutcome(outcomes[0].probability, Some(adjusted))];
      }
      ra := UA.RawAction(name, outcomes);
      assert ra.outcomes == Raw(PathAction(i, c, factors)).outcomes;
    }

    /** evaluate_paths_with_utility: each path becomes an action, and the
        utility-based agent decides by maximum expected utility; validation
        cannot fail since every probability lies in [0, 1]. */
    method EvaluatePathsWithUtility(paths: seq<Candidate>) returns (r: Evaluation)
      ensures r.allPathsEvaluation == PathActions(paths, factors)
      ensures |paths| == 0 ==> r.bestPath == "No valid actions" && r.bestUtility.None? && r.decisionInfo == UA.NoInfo
      ensures |paths| > 0 ==>
        var acts := PathActions(paths, factors);
        var vals := UA.MeuValues(acts, None);
        r.bestUtility.Some? && UA.ChoiceOf(acts, vals, r.bestPath, r.bestUtility.value) &&
        r.decisionInfo == UA.MeuInfo("Maximum Expected Utility", vals, vals)
    {
      var raw: seq<UA.RawAction> := [];
      for i := 0 to |paths|
        invariant |raw| == i
        invariant forall j :: 0 <= j < i ==> raw[j] == Raw(PathAction(j, paths[j], factors))
      {
        var ra := PathOutcomes(i, paths[i]);
        raw := raw + [ra];
      }
      var agent := UA.NewAgent(raw, UA.MaximumExpectedUtility, None);
      forall i | 0 <= i < |raw|
        ensures UA.ActionOk(raw[i])
      {
        PathActionOk(i, paths[i], factors);
      }
      var acts := agent.value.actions;
      forall i | 0 <= i < |acts|
        ensures acts[i] == PathActions(paths, factors)[i]
      {
        ChecksToRaw(PathAction(i, paths[i], factors), acts[i]);
      }
      assert acts == PathActions(paths, factors);
      var decision := UA.Decide(agent.value, x => x);
      r := Evaluation(decision.value.action, decision.value.utility, acts, decision.value.info);
    }

    /** make_decision: up to three routes, the utility-based choice among
        them, and the chosen route read back out of its action name. */
    method MakeDecision() returns (r: Result<HybridDecision, AgentError>, ghost all: seq<Candidate>)
      modifies this
      ensures start !in routes ==> r == Err(StartNotInRoutes(start))
      ensures start in routes && goal !in routes ==> r == Err(GoalNotInRoutes(goal))
      ensures Closed(routes) && start in routes && goal in routes ==> r.Ok?
      ensures r.Err? ==> r.error.StartNotInRoutes? || r.error.GoalNotInRoutes? || r.error.KeyMissing?
      ensures r.Err? && r.error.KeyMissing? ==> r.error.key !in routes
      ensures r.Ok? ==> GoodPaths(bestPaths, 3) && (r.value.NoPathFound? <==> bestPaths == [])
      ensures r.Ok? && r.value.NoPathFound? ==> r.value.message == "No path found from " + start + " to " + goal
      ensures r.Ok? && r.value.Chosen? ==> ChosenFrom(r.value, bestPaths, factors)
      ensures r.Ok? ==> DecidedOn(routes, start, goal, factors, r.value, all) &&
                        bestPaths == Considered(all)
      ensures r.Ok? && r.value.Chosen? && NamesOk(bestPaths) ==>
        exists i :: 0 <= i < |bestPaths| && r.value.bestPath == ActionName(i, bestPaths[i].path) &&
                    r.value.pathAsList == bestPaths[i].path
    {
      var found;
      found, all := FindMultiplePaths(3);
      if found.Err? {
        return Err(found.error), all;
      }
      var paths := found.value;
      if paths == [] {
        return Ok(NoPathFound("No path found from " + start + " to " + goal)), all;
      }
      var evaluation := EvaluatePathsWithUtility(paths);
      var name := evaluation.bestPath;
      var nodes := match ParenGroup(name) case Some(inner) => Split(inner, Arrow) case None => Split(name, Arrow);
      var d := Chosen(name, nodes, evaluation.bestUtility.value, evaluation.allPathsEvaluation,
                      evaluation.decisionInfo, |paths|);
      if NamesOk(paths) {
        ChosenReadsBack(d, paths, factors);
      }
      r := Ok(d);
    }
  }

  // ---------------------------------------------------------------------
  // The hybrid advisor

  /** attributes[course]['difficulty'], the course graph's edge weight. */
  function Difficulty(attributes: Table<Attributes>): Course -> real
  {
    c => match Lookup(attributes, c) case Some(a) => a.difficulty as real case None => 0.0
  }

  /** The hybrid advisor's course graph: a key per course of the
      prerequisites table and an edge prerequisite -> course, weighted by
      the course's difficulty, per listed prerequisite that is a key. */
  ghost predicate IsCourseGraph(g: Graph, cat: Catalog)
  {
    g.Keys == Keys(cat.prerequisites) &&
    forall u :: u in g ==> g[u] == EdgesFrom(cat.prerequisites, u, Difficulty(cat.attributes))
  }

  /** _build_course_graph: a key per course of the prerequisites table, then
      the prerequisite edges; KeyError for the first course with a
      prerequisite in the graph but no attributes. */
  method BuildCourseGraph(cat: Catalog) returns (r: Result<Graph, Course>)
    ensures r.Err? <==> LackingAttributes(cat.prerequisites, cat.attributes, Keys(cat.prerequisites)).Some?
    ensures r.Err? ==> r.error == LackingAttributes(cat.prerequisites, cat.attributes, Keys(cat.prerequisites)).value
    ensures r.Ok? ==> IsCourseGraph(r.value, cat)
  {
    var missing := LackingAttributes(cat.prerequisites, cat.attributes, Keys(cat.prerequisites));
    if missing.Some? {
      return Err(missing.value);
    }
    var g := AddCourseEdges(cat);
    r := Ok(g);
  }

  /** The keys of the prerequisites table, then the prerequisite edges. */
  method AddCourseEdges(cat: Catalog) returns (g: Graph)
    ensures IsCourseGraph(g, cat)
  {
    var g0: Graph := map c | c in Keys(cat.prerequisites) :: [];
    g := AddPrerequisiteEdges(g0, cat.prerequisites, Difficulty(cat.attributes));
    forall u | u in g
      ensures g[u] == EdgesFrom(cat.prerequisites, u, Difficulty(cat.attributes))
    {
      assert g0[u] == [];
    }
  }

  /** Once the graph is built, every edge goes to a course with attributes
      and weighs that course's difficulty. */
  lemma CourseGraphWeights(g: Graph, cat: Catalog, u: Node, e: Edge)
    requires IsCourseGraph(g, cat) && LackingAttributes(cat.prerequisites, cat.attributes, Keys(cat.prerequisites)).None?
    requires u in g && e in g[u]
    ensures e.dest in Keys(cat.attributes)
    ensures e.weight == Lookup(cat.attributes, e.dest).value.difficulty as real
  {
    EdgesFromEdges(cat.prerequisites, u, Difficulty(cat.attributes), e);
    var i :| 0 <= i < |cat.prerequisites| && u in cat.prerequisites[i].1 &&
             e == Edge(cat.prerequisites[i].0, Difficulty(cat.attributes)(cat.prerequisites[i].0));
    NoneLacking(cat.prerequisites, cat.attributes, Keys(cat.prerequisites), i, u);
  }

  /** The course graph is closed, and non-negative when difficulties are. */
  lemma CourseGraphClosed(g: Graph, cat: Catalog)
    requires IsCourseGraph(g, cat)
    ensures Closed(g)
    ensures (forall i :: 0 <= i < |cat.attributes| ==> cat.attributes[i].1.difficulty >= 0) ==> NonNegative(g)
  {
    var w := Difficulty(cat.attributes);
    forall u, e | u in g && e in g[u]
      ensures e.dest in g && ((forall i :: 0 <= i < |cat.attributes| ==> cat.attributes[i].1.difficulty >= 0) ==> e.weight >= 0.0)
    {
      EdgesFromEdges(cat.prerequisites, u, w, e);
    }
  }

  /** The route map of find_optimal_learning_path: the course graph with
      the virtual start joined to the start courses. */
  function WithStart(g: Graph, starts: seq<Course>): Graph
  {
    g[VirtualStart := StartEdges(g, starts)]
  }

  /** The virtual start's own name survives the round trip. */
  lemma VirtualStartNameOk()
    ensures NodeNameOk(VirtualStart)
  {
    assert ' ' !in VirtualStart;
    forall i: nat | i <= |VirtualStart|
      ensures !OccursAt(VirtualStart, Arrow, i)
    {
      if i + |Arrow| <= |VirtualStart| {
        assert VirtualStart[i..i + |Arrow|][0] == VirtualStart[i];
      }
    }
    assert VirtualStart[|VirtualStart| - 3..][0] == 'a';
  }

  /** Every node of a route to a key is a key. */
  lemma RouteNodes(g: Graph, s: Node, t: Node, p: seq<Node>, c: real)
    requires Route(g, s, t, p, c) && t in g
    ensures forall k :: 0 <= k < |p| ==> p[k] in g
  {
    var ws :| IsWalk(g, p, ws) && Sum(ws) == c;
    forall k | 0 <= k < |p| - 1
      ensures p[k] in g
    {
      assert HasEdge(g, p[k], p[k + 1], ws[k]);
    }
  }

  /** Routes through a map whose keys are all well-behaved names have
      well-behaved names only. */
  lemma RoutesNamesOk(g: Graph, s: Node, t: Node, paths: seq<Candidate>)
    requires AllRoutes(g, s, t, paths, None) && t in g
    requires forall n :: n in g ==> NodeNameOk(n)
    ensures NamesOk(paths)
  {
    forall i | 0 <= i < |paths|
      ensures forall k :: 0 <= k < |paths[i].path| ==> NodeNameOk(paths[i].path[k])
    {
      RouteNodes(g, s, t, paths[i].path, paths[i].cost);
    }
  }

  /** The penalty of each course: minus a tenth of its utility. */
  function UtilityPenalties(attributes: Table<Attributes>): map<Node, real>
  {
    map c | c in Keys(attributes) :: -(match Lookup(attributes, c) case Some(a) => a.utility as real case None => 0.0) * 0.1
  }

  /** The chosen path, with the virtual start filtered out, is a route from
      the virtual start without its first node. */
  lemma ReadBackStripped(temp: Graph, goal: Node, paths: seq<Candidate>, nodes: seq<Node>)
    requires AllRoutes(temp, VirtualStart, goal, paths, None) && goal in temp
    requires forall n :: n in temp && n != VirtualStart ==> NodeNameOk(n)
    requires NamesOk(paths) ==> exists i :: 0 <= i < |paths| && nodes == paths[i].path
    ensures exists p, cost :: Route(temp, VirtualStart, goal, p, cost) && WithoutVirtualStart(nodes) == p[1..]
  {
    VirtualStartNameOk();
    RoutesNamesOk(temp, VirtualStart, goal, paths);
    var i :| 0 <= i < |paths| && nodes == paths[i].path;
    StripRoute(nodes);
  }

  /** What find_optimal_learning_path returns; a utility of None stands for
      minus infinity. */
  datatype OptimalPath = OptimalPath(success: bool, path: Option<string>, pathList: seq<Course>,
                                     utility: Option<real>, startCourses: seq<Course>, goalCourse: Course,
                                     allConsideredPaths: seq<UA.Action>, decisionInfo: UA.Info)

  class LearningPathAdvisorWithHybridAgent {
    var prerequisites: Table<seq<Course>>
    var attributes: Table<Attributes>
    const courseGraph: Graph

    /** The catalog tables and the course graph built from them; building
        the graph raises KeyError for a course with a prerequisite in the
        graph but no attributes, so no course may be such. */
    constructor (cat: Catalog)
      requires LackingAttributes(cat.prerequisites, cat.attributes, Keys(cat.prerequisites)).None?
      ensures prerequisites == cat.prerequisites && attributes == cat.attributes
      ensures IsCourseGraph(courseGraph, cat) && Closed(courseGraph)
    {
      var built := BuildCourseGraph(cat);
      var g := built.value;
      CourseGraphClosed(g, cat);
      prerequisites := cat.prerequisites;
      attributes := cat.attributes;
      courseGraph := g;
    }

    /** find_optimal_learning_path: the hybrid agent from a virtual start
        joined to the completed courses, with a length factor of -0.5 and a
        penalty of minus a tenth of each course's utility. The virtual start
        is added to the catalog tables if they lack it, so it carries a
        penalty of 0 itself. */
    method FindOptimalLearningPath(startCourses: seq<Course>, goalCourse: Course)
      returns (r: Result<OptimalPath, AgentError>, ghost d: HybridDecision, ghost all: seq<Candidate>)
      requires Closed(courseGraph)
      modifies this
      ensures VirtualStart in Keys(old(prerequisites)) ==>
        prerequisites == old(prerequisites) && attributes == old(attributes)
      ensures VirtualStart !in Keys(old(prerequisites)) ==>
        prerequisites == old(prerequisites) + [(VirtualStart, [])] &&
        attributes == Store(old(attributes), VirtualStart, Attributes(0, 0, 0, None, None))
      ensures FromVirtualStart(courseGraph, startCourses, goalCourse, r)
      ensures r.Ok? ==>
        DecidedOn(WithStart(courseGraph, startCourses), VirtualStart, goalCourse,
                  Factors(Some(-0.5), Some(UtilityPenalties(attributes))), d, all) &&
        Reports(r.value, d)
    {
      if VirtualStart !in Keys(prerequisites) {
        prerequisites := prerequisites + [(VirtualStart, [])];
        attributes := Store(attributes, VirtualStart, Attributes(0, 0, 0, None, None));
      }
      r, d, all := SearchFromVirtualStart(courseGraph, startCourses, goalCourse, UtilityPenalties(attributes));
    }
  }

  /** What find_optimal_learning_path promises about its result r on the
      course graph g: it fails only for a goal outside the map; with no
      path everything is empty; otherwise the path text is the joined list,
      which holds no virtual start and is a route from the virtual start
      without its first node. With non-negative difficulties it succeeds
      exactly when some start course in the graph reaches the goal. */
  ghost predicate FromVirtualStart(g: Graph, starts: seq<Course>, goal: Course, r: Result<OptimalPath, AgentError>)
  {
    (r.Err? <==> goal != VirtualStart && goal !in g) &&
    (r.Err? ==> r.error == GoalNotInRoutes(goal)) &&
    (r.Ok? ==> r.value.startCourses == starts && r.value.goalCourse == goal && VirtualStart !in r.value.pathList) &&
    (r.Ok? && !r.value.success ==>
      r.value.path.None? && r.value.pathList == [] && r.value.utility.None? &&
      r.value.allConsideredPaths == [] && r.value.decisionInfo == UA.NoInfo) &&
    (r.Ok? && r.value.success ==> r.value.path == Some(Join(r.value.pathList, Arrow))) &&
    (r.Ok? && NonNegative(g) ==>
      (r.value.success <==> Reachable(WithStart(g, starts), VirtualStart, goal))) &&
    (r.Ok? && NonNegative(g) && VirtualStart !in g ==>
      (r.value.success <==> goal == VirtualStart || exists s :: s in starts && s in g && Reachable(g, s, goal))) &&
    (r.Ok? && r.value.success && (forall c :: c in g ==> NodeNameOk(c)) ==>
      exists p, cost :: Route(WithStart(g, starts), VirtualStart, goal, p, cost) && r.value.pathList == p[1..])
  }

  /** o reports the decision d as find_optimal_learning_path copies it: no
      path gives an unsuccessful, empty result; a chosen path gives its node
      list without the virtual start, joined as the path text, with the
      decision's utility, evaluated actions and decision info. */
  predicate Reports(o: OptimalPath, d: HybridDecision)
  {
    match d
    case NoPathFound(_) =>
      !o.success && o.path.None? && o.pathList == [] && o.utility.None? &&
      o.allConsideredPaths == [] && o.decisionInfo == UA.NoInfo
    case Chosen(_, nodes, utility, evaluated, info, _) =>
      o.success && o.pathList == WithoutVirtualStart(nodes) && o.path == Some(Join(o.pathList, Arrow)) &&
      o.utility == Some(utility) && o.allConsideredPaths == evaluated && o.decisionInfo == info
  }

  /** A chosen decision picks one of the (at most three) considered routes,
      read back intact, and none of them has a higher expected utility. */
  lemma DecidedBestRoute(g: Graph, s: Node, t: Node, f: Factors, d: HybridDecision, all: seq<Candidate>)
    requires DecidedOn(g, s, t, f, d, all) && d.Chosen?
    requires NamesOk(all) && forall i :: 0 <= i < |all| ==> |all[i].path| >= 1
    ensures exists i :: 0 <= i < |Considered(all)| && d.pathAsList == Considered(all)[i].path
    ensures forall j :: 0 <= j < |Considered(all)| ==>
      UA.ExpectedUtility(PathAction(j, Considered(all)[j], f).outcomes, None) <= d.bestUtility
  {
    ConsideredNamesOk(all);
    ChosenReadsBack(d, Considered(all), f);
  }

  /** The considered routes keep the properties of the enumeration. */
  lemma ConsideredNamesOk(all: seq<Candidate>)
    requires NamesOk(all) && forall i :: 0 <= i < |all| ==> |all[i].path| >= 1
    ensures NamesOk(Considered(all)) && forall i :: 0 <= i < |Considered(all)| ==> |Considered(all)[i].path| >= 1
  {
    var paths := Considered(all);
    forall i | 0 <= i < |paths|
      ensures paths[i] == all[i]
    {
    }
  }

  /** The hybrid agent on the route map with the virtual start, its
      decision, and (as a ghost) the routes it considered. */
  method RunAgent(temp: Graph, goal: Course, penalties: map<Node, real>)
    returns (d: Result<HybridDecision, AgentError>, ghost paths: seq<Candidate>, ghost all: seq<Candidate>)
    requires Closed(temp) && VirtualStart in temp
    ensures d.Err? <==> goal !in temp
    ensures d.Err? ==> d.error == GoalNotInRoutes(goal)
    ensures d.Ok? ==> AllRoutes(temp, VirtualStart, goal, paths, None) && (d.value.NoPathFound? <==> paths == [])
    ensures d.Ok? && NonNegative(temp) ==> (d.value.NoPathFound? <==> !Reachable(temp, VirtualStart, goal))
    ensures d.Ok? && d.value.Chosen? && NamesOk(paths) ==>
      exists i :: 0 <= i < |paths| && d.value.pathAsList == paths[i].path
    ensures d.Ok? ==> DecidedOn(temp, VirtualStart, goal, Factors(Some(-0.5), Some(penalties)), d.value, all) &&
                      paths == Considered(all)
  {
    var agent := new HybridAgent(temp, VirtualStart, goal, Factors(Some(-0.5), Some(penalties)));
    d, all := agent.MakeDecision();
    paths := agent.bestPaths;
  }

  /** The search of find_optimal_learning_path once the tables are set up. */
  method SearchFromVirtualStart(g: Graph, starts: seq<Course>, goal: Course, penalties: map<Node, real>)
    returns (r: Result<OptimalPath, AgentError>, ghost d: HybridDecision, ghost all: seq<Candidate>)
    requires Closed(g)
    ensures FromVirtualStart(g, starts, goal, r)
    ensures r.Ok? ==> DecidedOn(WithStart(g, starts), VirtualStart, goal, Factors(Some(-0.5), Some(penalties)), d, all) &&
                      Reports(r.value, d)
  {
    d := NoPathFound("");
    var temp := AddVirtualStart(g, starts);
    assert temp == WithStart(g, starts);
    VirtualStartClosed(g, starts);
    var decision; ghost var paths;
    decision, paths, all := RunAgent(temp, goal, penalties);
    if NonNegative(g) && VirtualStart !in g {
      VirtualStartReach(g, starts, goal);
    }
    if decision.Err? {
      return Err(decision.error), d, all;
    }
    d := decision.value;
    match decision.value
    case NoPathFound(_) =>
      r := Ok(OptimalPath(false, None, [], None, starts, goal, [], UA.NoInfo));
    case Chosen(_, nodes, utility, evaluated, info, _) =>
      var finalPath := WithoutVirtualStart(nodes);
      if forall c :: c in g ==> NodeNameOk(c) {
        ReadBackStripped(temp, goal, paths, nodes);
      }
      r := Ok(OptimalPath(true, Some(Join(finalPath, Arrow)), finalPath, Some(utility),
                          starts, goal, evaluated, info));
  }
}

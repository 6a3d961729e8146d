/** The enhanced advisor's path planning: the style-weighted course graph,
    the virtual start joined to the completed courses, the single best path,
    the alternatives, the hybrid recommendation and the primary path with
    its alternatives. The catalog is a parameter. */
module LearningPaths {
  import opened Wrappers
  import opened Text
  import opened Graph
  import opened PathSearch
  import opened GoalAgent
  import opened RouteLists
  import opened CourseGraph
  import Hybrid
  import UA = UtilityAgent

  datatype LearningStyle = Fastest | Easiest | Balanced | Challenging

  /** The share of each cost component in an edge weight. */
  datatype Weights = Weights(time: real, difficulty: real, utility: real, prereq: real)

  function DefaultWeights(style: LearningStyle): Weights
  {
    match style
    case Fastest => Weights(0.7, 0.2, 0.1, 0.0)
    case Easiest => Weights(0.2, 0.6, 0.2, 0.0)
    case Challenging => Weights(0.2, 0.2, 0.5, 0.1)
    case Balanced => Weights(0.4, 0.3, 0.2, 0.1)
  }

  function Total(w: Weights): real
  {
    w.time + w.difficulty + w.utility + w.prereq
  }

  /** cost_weights.get(key, default). */
  function Override(costWeights: map<string, real>, key: string, default: real): real
  {
    if key in costWeights then costWeights[key] else default
  }

  /** The style's defaults, each replaced by the caller's value under its key. */
  function BaseWeights(style: LearningStyle, costWeights: Option<map<string, real>>): Weights
  {
    var d := DefaultWeights(style);
    match costWeights
    case None => d
    case Some(cw) =>
      Weights(Override(cw, "time", d.time), Override(cw, "difficulty", d.difficulty),
              Override(cw, "utility", d.utility), Override(cw, "prereq", d.prereq))
  }

  /** Overrides are taken key by key: a missing key keeps the default, and
      keys other than the four are ignored. */
  lemma OverridesKeyByKey(style: LearningStyle, cw: map<string, real>, key: string, v: real)
    requires key !in {"time", "difficulty", "utility", "prereq"}
    ensures BaseWeights(style, Some(cw[key := v])) == BaseWeights(style, Some(cw))
    ensures BaseWeights(style, Some(map[])) == BaseWeights(style, None)
    ensures "time" in cw ==> BaseWeights(style, Some(cw)).time == cw["time"]
    ensures "time" !in cw ==> BaseWeights(style, Some(cw)).time == DefaultWeights(style).time
  {
    assert "time" != key && "difficulty" != key && "utility" != key && "prereq" != key;
  }

  /** Every style's defaults already add up to 1. */
  lemma DefaultsNormalised(style: LearningStyle)
    ensures Normalised(DefaultWeights(style)) == DefaultWeights(style)
  {
    var d := DefaultWeights(style);
    assert Total(d) == 1.0;
  }

  /** The weights divided by their total, or difficulty alone when the
      total is 0. */
  function Normalised(w: Weights): (n: Weights)
    ensures Total(n) == 1.0
    ensures Total(w) == 0.0 ==> n == Weights(0.0, 1.0, 0.0, 0.0)
  {
    var t := Total(w);
    if t == 0.0 then Weights(0.0, 1.0, 0.0, 0.0)
    else
      Quotients(w.time, w.difficulty, w.utility, w.prereq, t);
      Weights(w.time / t, w.difficulty / t, w.utility / t, w.prereq / t)
  }

  /** With a non-zero total, each normalised weight times the total gives
      the raw weight back. */
  lemma {:induction false} NormalisedProportional(w: Weights)
    requires Total(w) != 0.0
    ensures var n := Normalised(w);
      n.time * Total(w) == w.time && n.difficulty * Total(w) == w.difficulty &&
      n.utility * Total(w) == w.utility && n.prereq * Total(w) == w.prereq
  {
    Quotients(w.time, w.difficulty, w.utility, w.prereq, Total(w));
  }

  /** Four values divided by their non-zero sum add up to 1, and each
      quotient times the sum gives its value back. */
  lemma {:induction false} Quotients(a: real, b: real, c: real, d: real, t: real)
    requires t == a + b + c + d && t != 0.0
    ensures a / t + b / t + c / t + d / t == 1.0
    ensures a / t * t == a && b / t * t == b && c / t * t == c && d / t * t == d
  {
    assert a / t + b / t + c / t + d / t == t / t;
  }

  /** The cost components of a course: its hours in tens, its difficulty,
      ten minus its utility and its prerequisite count, each 0 when the
      course has no attributes or the entry no value. */
  datatype Components = Components(time: real, difficulty: real, utility: real, prereq: real)

  function ComponentsOf(a: Option<Attributes>): Components
  {
    match a
    case None => Components(0.0, 0.0, 10.0, 0.0)
    case Some(x) =>
      Components(x.timeHours as real / 10.0, x.difficulty as real, 10.0 - x.utility as real,
                 match x.prerequisitesCount case Some(k) => k as real case None => 0.0)
  }

  function Mix(n: Weights, c: Components): real
  {
    n.time * c.time + n.difficulty * c.difficulty + n.utility * c.utility + n.prereq * c.prereq
  }

  /** The weight of an edge into a course; a mix that is not positive is
      replaced by max(difficulty, 1), so every weight is positive. */
  function EdgeWeight(n: Weights, a: Option<Attributes>): (w: real)
    ensures w > 0.0
    ensures Mix(n, ComponentsOf(a)) > 0.0 ==> w == Mix(n, ComponentsOf(a))
    ensures Mix(n, ComponentsOf(a)) <= 0.0 ==> w >= 1.0
  {
    var m := Mix(n, ComponentsOf(a));
    if m <= 0.0 then (if ComponentsOf(a).difficulty >= 1.0 then ComponentsOf(a).difficulty else 1.0) else m
  }

  function StyleWeight(attributes: Table<Attributes>, n: Weights): Course -> real
  {
    c => EdgeWeight(n, Lookup(attributes, c))
  }

  /** Every course of either table. */
  function AllCourses(cat: Catalog): set<Course>
  {
    Keys(cat.attributes) + Keys(cat.prerequisites)
  }

  /** A key per course of either table, and per listed prerequisite that
      is a course an edge from it to the listing course, weighted by weight. */
  function PrerequisiteGraph(cat: Catalog, weight: Course -> real): Graph
  {
    map c | c in AllCourses(cat) :: EdgesFrom(cat.prerequisites, c, weight)
  }

  /** The keys of every course, then the prerequisite edges. */
  method AddCourseEdges(cat: Catalog, weight: Course -> real) returns (g: Graph)
    ensures g == PrerequisiteGraph(cat, weight)
  {
    var g0: Graph := map c | c in AllCourses(cat) :: [];
    g := AddPrerequisiteEdges(g0, cat.prerequisites, weight);
    forall u | u in g
      ensures g[u] == EdgesFrom(cat.prerequisites, u, weight)
    {
      assert g0[u] == [];
    }
    IsPrerequisiteGraph(g, cat, weight);
  }

  /** A map with a key per course and, under each, the edges out of it is
      the prerequisite graph. */
  lemma IsPrerequisiteGraph(g: Graph, cat: Catalog, weight: Course -> real)
    requires g.Keys == AllCourses(cat)
    requires forall u :: u in g ==> g[u] == EdgesFrom(cat.prerequisites, u, weight)
    ensures g == PrerequisiteGraph(cat, weight)
  {
  }

  /** The style-weighted graph. */
  function WeightedGraph(cat: Catalog, style: LearningStyle, costWeights: Option<map<string, real>>): Graph
  {
    PrerequisiteGraph(cat, StyleWeight(cat.attributes, Normalised(BaseWeights(style, costWeights))))
  }

  /** _build_weighted_graph. */
  method BuildWeightedGraph(cat: Catalog, style: LearningStyle, costWeights: Option<map<string, real>>)
    returns (g: Graph)
    ensures g == WeightedGraph(cat, style, costWeights)
  {
    var base := BaseWeights(style, costWeights);
    var total := base.time + base.difficulty + base.utility + base.prereq;
    var norm := if total == 0.0 then Weights(0.0, 1.0, 0.0, 0.0)
                else Weights(base.time / total, base.difficulty / total, base.utility / total, base.prereq / total);
    assert norm == Normalised(base);
    g := AddCourseEdges(cat, StyleWeight(cat.attributes, norm));
  }

  /** The weighted graph is closed and every weight in it is positive. */
  lemma {:induction false} WeightedGraphPositive(cat: Catalog, style: LearningStyle, costWeights: Option<map<string, real>>)
    ensures Closed(WeightedGraph(cat, style, costWeights)) && NonNegative(WeightedGraph(cat, style, costWeights))
    ensures forall u, e: Edge :: u in WeightedGraph(cat, style, costWeights) && e in WeightedGraph(cat, style, costWeights)[u] ==>
                           e.weight > 0.0
  {
    var g := WeightedGraph(cat, style, costWeights);
    forall u, e: Edge | u in g && e in g[u]
      ensures e.dest in g && e.weight > 0.0
    {
      WeightedEdge(cat, Normalised(BaseWeights(style, costWeights)), u, e);
    }
  }

  /** An edge of the prerequisite graph weighted by StyleWeight leads to a
      key and weighs more than 0. */
  lemma {:induction false} WeightedEdge(cat: Catalog, n: Weights, u: Course, e: Edge)
    requires u in PrerequisiteGraph(cat, StyleWeight(cat.attributes, n))
    requires e in PrerequisiteGraph(cat, StyleWeight(cat.attributes, n))[u]
    ensures e.dest in PrerequisiteGraph(cat, StyleWeight(cat.attributes, n)) && e.weight > 0.0
  {
    var w := StyleWeight(cat.attributes, n);
    assert PrerequisiteGraph(cat, w)[u] == EdgesFrom(cat.prerequisites, u, w);
    EdgesFromEdges(cat.prerequisites, u, w, e);
    var i :| 0 <= i < |cat.prerequisites| && u in cat.prerequisites[i].1 &&
             e == Edge(cat.prerequisites[i].0, w(cat.prerequisites[i].0));
    assert e.dest in Keys(cat.prerequisites);
    assert e.weight == EdgeWeight(n, Lookup(cat.attributes, e.dest));
  }

  /** With unique course names, there are exactly as many edges u -> v as
      listings of u among v's prerequisites. */
  lemma WeightedGraphEdgeCount(cat: Catalog, style: LearningStyle, costWeights: Option<map<string, real>>, u: Course, v: Course)
    requires UniqueKeys(cat.prerequisites) && u in AllCourses(cat)
    ensures multiset(Dests(WeightedGraph(cat, style, costWeights)[u]))[v] ==
            (match Lookup(cat.prerequisites, v) case Some(ps) => multiset(ps)[u] case None => 0)
  {
    EdgesFromCount(cat.prerequisites, u, v, StyleWeight(cat.attributes, Normalised(BaseWeights(style, costWeights))));
  }

  // ---------------------------------------------------------------------
  // The difficulty graph

  /** The difficulty-weighted graph over every course of either table. */
  function DifficultyGraph(cat: Catalog): Graph
  {
    PrerequisiteGraph(cat, Hybrid.Difficulty(cat.attributes))
  }

  /** _build_course_graph: KeyError for a course with a prerequisite in the
      graph but no attributes. */
  method BuildCourseGraph(cat: Catalog) returns (r: Result<Graph, Course>)
    ensures r.Err? <==> LackingAttributes(cat.prerequisites, cat.attributes, AllCourses(cat)).Some?
    ensures r.Err? ==> r.error == LackingAttributes(cat.prerequisites, cat.attributes, AllCourses(cat)).value
    ensures r.Ok? ==> r.value == DifficultyGraph(cat)
  {
    var missing := LackingAttributes(cat.prerequisites, cat.attributes, AllCourses(cat));
    if missing.Some? {
      return Err(missing.value);
    }
    var g := AddCourseEdges(cat, Hybrid.Difficulty(cat.attributes));
    r := Ok(g);
  }

  /** The difficulty graph is closed and each edge into a course weighs its
      difficulty. */
  lemma DifficultyGraphEdges(cat: Catalog, u: Course, e: Edge)
    requires u in DifficultyGraph(cat) && e in DifficultyGraph(cat)[u]
    ensures e.dest in DifficultyGraph(cat) && e.dest in Keys(cat.prerequisites)
    ensures e.dest in Keys(cat.attributes) ==> e.weight == Lookup(cat.attributes, e.dest).value.difficulty as real
  {
    EdgesFromEdges(cat.prerequisites, u, Hybrid.Difficulty(cat.attributes), e);
  }

  // ---------------------------------------------------------------------
  // The best path from the completed courses

  /** The route map searched: the weighted graph with the virtual start. */
  function SearchMap(cat: Catalog, style: LearningStyle, costWeights: Option<map<string, real>>, starts: seq<Course>): Graph
  {
    Hybrid.WithStart(WeightedGraph(cat, style, costWeights), starts)
  }

  /** The goal-based agent find_learning_path builds, given the heuristic
      it passes. */
  function PathAgent(cat: Catalog, style: LearningStyle, costWeights: Option<map<string, real>>, starts: seq<Course>,
                     goal: Course, algorithm: Algorithm, heuristic: Option<(Node, Node) -> real>): Agent
  {
    Agent(SearchMap(cat, style, costWeights, starts), VirtualStart, goal, heuristic, algorithm)
  }

  const StartPrefix: string := "virtual_start -> "

  /** path_str.replace('virtual_start -> ', '', 1) when the text starts with it. */
  function StripStart(text: string): string
  {
    if |StartPrefix| <= |text| && text[..|StartPrefix|] == StartPrefix then text[|StartPrefix|..] else text
  }

  /** Stripping the joined text of a path from the virtual start leaves the
      joined text of the rest of the path. */
  lemma StripStartJoin(p: seq<Node>)
    requires |p| >= 2 && p[0] == VirtualStart
    ensures StripStart(Join(p, Arrow)) == Join(p[1..], Arrow)
  {
    var rest := Join(p[1..], Arrow);
    assert Join(p, Arrow) == StartPrefix + rest;
    assert (StartPrefix + rest)[..|StartPrefix|] == StartPrefix;
    assert (StartPrefix + rest)[|StartPrefix|..] == rest;
  }

  /** What find_learning_path returns; a cost of None stands for infinity. */
  datatype PathResult = PathResult(success: bool, path: Option<string>, pathList: seq<Course>, totalCost: Option<real>,
                                   startCourses: seq<Course>, goalCourse: Course, learningStyle: LearningStyle,
                                   algorithm: Algorithm, pathDetails: Details)

  /** What find_learning_path promises on the route map a of its agent. */
  ghost predicate PathFound(a: Agent, r: PathResult)
  {
    (r.success <==> Reachable(a.routes, a.start, a.goal)) &&
    r.pathDetails.success == r.success &&
    (!r.success ==> r.path.None? && r.pathList == [] && r.totalCost.None?) &&
    (r.success ==>
       r.totalCost.Some? && r.path.Some? &&
       exists p :: SearchFound(a, p, r.totalCost.value) &&
                   (|p| >= 2 ==> r.path.value == Join(p[1..], Arrow) && ReadsBack(p[1..], r.pathList) && VirtualStart !in p[1..]))
  }

  /** find_learning_path: a plan on the weighted graph from the virtual
      start, with the virtual start stripped from the text. A goal outside
      the graph raises ValueError, and so does A*, since no heuristic is
      passed. */
  method FindLearningPath(cat: Catalog, starts: seq<Course>, goal: Course, style: LearningStyle,
                          algorithm: Algorithm, costWeights: Option<map<string, real>>)
    returns (r: Result<PathResult, AgentError>)
    ensures goal !in SearchMap(cat, style, costWeights, starts) ==> r == Err(GoalNotInRoutes(goal))
    ensures goal in SearchMap(cat, style, costWeights, starts) && algorithm.AStarSearch? ==> r == Err(HeuristicMissing)
    ensures goal in SearchMap(cat, style, costWeights, starts) && !algorithm.AStarSearch? ==> r.Ok?
    ensures r.Ok? ==> r.value.startCourses == starts && r.value.goalCourse == goal &&
                      r.value.learningStyle == style && r.value.algorithm == algorithm
    ensures r.Ok? ==> PathFound(PathAgent(cat, style, costWeights, starts, goal, algorithm, None), r.value)
  {
    r := FindPathWith(cat, starts, goal, style, algorithm, costWeights, None);
  }

  /** The estimate 0 for every pair of nodes: consistent on any graph with
      non-negative weights. */
  function NoEstimate(u: Node, v: Node): real
  {
    0.0
  }

  /** find_learning_path with the A* option usable: the agent is given the
      zero estimate, which no other algorithm reads. */
  method FindLearningPathCorrected(cat: Catalog, starts: seq<Course>, goal: Course, style: LearningStyle,
                                   algorithm: Algorithm, costWeights: Option<map<string, real>>)
    returns (r: Result<PathResult, AgentError>)
    ensures r.Err? <==> goal !in SearchMap(cat, style, costWeights, starts)
    ensures r.Err? ==> r.error == GoalNotInRoutes(goal)
    ensures r.Ok? ==> r.value.startCourses == starts && r.value.goalCourse == goal &&
                      r.value.learningStyle == style && r.value.algorithm == algorithm
    ensures r.Ok? ==> PathFound(PathAgent(cat, style, costWeights, starts, goal, algorithm, Some(NoEstimate)), r.value)
  {
    r := FindPathWith(cat, starts, goal, style, algorithm, costWeights, Some(NoEstimate));
  }

  /** With the zero estimate a successful A* result is the cheapest way from
      the completed courses. */
  lemma CorrectedAStarCheapest(cat: Catalog, style: LearningStyle, costWeights: Option<map<string, real>>,
                               starts: seq<Course>, goal: Course, r: PathResult)
    requires PathFound(PathAgent(cat, style, costWeights, starts, goal, AStarSearch, Some(NoEstimate)), r) && r.success
    ensures Cheapest(SearchMap(cat, style, costWeights, starts), VirtualStart, goal, r.totalCost.value)
  {
    WeightedGraphPositive(cat, style, costWeights);
    VirtualStartClosed(WeightedGraph(cat, style, costWeights), starts);
    ZeroConsistent(SearchMap(cat, style, costWeights, starts), goal);
  }

  lemma ZeroConsistent(g: Graph, t: Node)
    requires NonNegative(g)
    ensures Consistent(g, ToGoal(NoEstimate, t))
  {
    forall u, e: Edge | u in g && e in g[u]
      ensures ToGoal(NoEstimate, t)(u) <= e.weight + ToGoal(NoEstimate, t)(e.dest)
    {
      assert ToGoal(NoEstimate, t)(u) == NoEstimate(u, t) == 0.0;
      assert ToGoal(NoEstimate, t)(e.dest) == NoEstimate(e.dest, t) == 0.0;
      assert e.weight >= 0.0;
    }
  }

  /** A catalog where B follows A and A is completed: B can be reached, yet
      find_learning_path with A* raises for it. */
  lemma AStarRaisesOnReachableGoal()
    ensures var cat := Catalog([("A", []), ("B", ["A"])], []);
      "B" in SearchMap(cat, Balanced, None, ["A"]) &&
      Reachable(SearchMap(cat, Balanced, None, ["A"]), VirtualStart, "B")
  {
    var g: Graph := SearchMap(Catalog([("A", []), ("B", ["A"])], []), Balanced, None, ["A"]);
    ChainRouteMap();
    var p: seq<Node> := [VirtualStart, "A", "B"];
    assert g[p[0]][0].dest == p[1] && g[p[1]][0].dest == p[2];
    assert IsPath(g, p);
  }

  /** The route map of the two-course chain: the virtual start leads to A
      and A leads to B. */
  lemma ChainRouteMap()
    ensures var g := SearchMap(Catalog([("A", []), ("B", ["A"])], []), Balanced, None, ["A"]);
      VirtualStart in g && "A" in g && "B" in g &&
      g[VirtualStart] == [Edge("A", 0.0)] && |g["A"]| == 1 && g["A"][0].dest == "B"
  {
    var cat := Catalog([("A", []), ("B", ["A"])], []);
    var w := WeightedGraph(cat, Balanced, None);
    assert AllCourses(cat) == {"A", "B"};
    var weight := StyleWeight(cat.attributes, Normalised(BaseWeights(Balanced, None)));
    assert w["A"] == [Edge("B", weight("B"))] by {
      ChainEdges(cat.prerequisites, weight);
    }
  }

  /** Only B lists A as a prerequisite. */
  lemma ChainEdges(t: Table<seq<Course>>, weight: Course -> real)
    requires t == [("A", []), ("B", ["A"])]
    ensures EdgesFrom(t, "A", weight) == [Edge("B", weight("B"))]
  {
    assert Listing("A", [], "A", weight) == [];
    assert ["A"][..0] == [];
    assert Listing("B", ["A"], "A", weight) == [Edge("B", weight("B"))];
    assert t[..1] == [("A", [])] && t[..1][..0] == [];
    assert EdgesFrom(t[..1], "A", weight) == [];
  }

  /** The steps of find_learning_path for a given heuristic. */
  method FindPathWith(cat: Catalog, starts: seq<Course>, goal: Course, style: LearningStyle,
                      algorithm: Algorithm, costWeights: Option<map<string, real>>,
                      heuristic: Option<(Node, Node) -> real>)
    returns (r: Result<PathResult, AgentError>)
    ensures goal !in SearchMap(cat, style, costWeights, starts) ==> r == Err(GoalNotInRoutes(goal))
    ensures goal in SearchMap(cat, style, costWeights, starts) && algorithm.AStarSearch? && heuristic.None? ==>
            r == Err(HeuristicMissing)
    ensures goal in SearchMap(cat, style, costWeights, starts) && !(algorithm.AStarSearch? && heuristic.None?) ==> r.Ok?
    ensures r.Ok? ==> r.value.startCourses == starts && r.value.goalCourse == goal &&
                      r.value.learningStyle == style && r.value.algorithm == algorithm
    ensures r.Ok? ==> PathFound(PathAgent(cat, style, costWeights, starts, goal, algorithm, heuristic), r.value)
  {
    var weighted := BuildWeightedGraph(cat, style, costWeights);
    var temp := AddVirtualStart(weighted, starts);
    WeightedGraphPositive(cat, style, costWeights);
    VirtualStartClosed(weighted, starts);
    var agent := NewAgent(temp, VirtualStart, goal, heuristic, algorithm);
    if agent.Err? {
      return Err(agent.error);
    }
    assert agent.value == PathAgent(cat, style, costWeights, starts, goal, algorithm, heuristic);
    var plan := MakePlan(agent.value);
    if plan.Err? {
      return Err(plan.error);
    }
    var pr := ReadPlan(agent.value, plan.value, starts, style);
    r := Ok(pr);
  }

  /** The result find_learning_path builds from a plan of its agent. */
  method ReadPlan(a: Agent, plan: PlanResult, starts: seq<Course>, style: LearningStyle) returns (r: PathResult)
    requires Valid(a) && a.start == VirtualStart && Closed(a.routes) && !(a.algorithm.AStarSearch? && a.heuristic.None?)
    requires plan.NoPlan? <==> !Reachable(a.routes, a.start, a.goal)
    requires plan.Plan? ==> exists p :: SearchFound(a, p, plan.cost) && plan.text == Join(p, Arrow)
    ensures r.startCourses == starts && r.goalCourse == a.goal && r.learningStyle == style && r.algorithm == a.algorithm
    ensures PathFound(a, r)
  {
    var details := PathDetails(a);
    var d := details.value;
    match plan
    case NoPlan =>
      r := PathResult(false, None, [], None, starts, a.goal, style, a.algorithm, d);
    case Plan(text, cost) =>
      var path := StripStart(text);
      ghost var p :| SearchFound(a, p, cost) && text == Join(p, Arrow);
      if |p| >= 2 {
        FoundFromStart(a, p, cost);
      }
      r := PathResult(true, Some(path), ReadPlanText(path), Some(cost), starts, a.goal, style, a.algorithm, d);
  }

  /** A found path from the virtual start reads back without it. */
  lemma FoundFromStart(a: Agent, p: seq<Node>, cost: real)
    requires a.start == VirtualStart && SearchFound(a, p, cost) && |p| >= 2
    ensures StripStart(Join(p, Arrow)) == Join(p[1..], Arrow)
    ensures ReadsBack(p[1..], ReadPlanText(Join(p[1..], Arrow)))
    ensures VirtualStart !in p[1..]
  {
    assert Distinct(p) && p[0] == VirtualStart;
    StripStartJoin(p);
    PlanTextReadsBack(p[1..]);
    forall i | 0 <= i < |p[1..]|
      ensures p[1..][i] != VirtualStart
    {
      assert p[1..][i] == p[i + 1];
    }
  }

  /** With the virtual start not a course, success means some completed
      course in the graph reaches the goal. */
  lemma SuccessFromSomeStart(cat: Catalog, style: LearningStyle, costWeights: Option<map<string, real>>,
                             starts: seq<Course>, goal: Course)
    requires VirtualStart !in AllCourses(cat)
    ensures Reachable(SearchMap(cat, style, costWeights, starts), VirtualStart, goal) <==>
            goal == VirtualStart ||
            exists s :: s in starts && s in AllCourses(cat) && Reachable(WeightedGraph(cat, style, costWeights), s, goal)
  {
    WeightedGraphPositive(cat, style, costWeights);
    VirtualStartReach(WeightedGraph(cat, style, costWeights), starts, goal);
  }

  /** With Dijkstra, a successful result is the cheapest way from the
      completed courses. */
  lemma DijkstraPathCheapest(cat: Catalog, style: LearningStyle, costWeights: Option<map<string, real>>,
                             starts: seq<Course>, goal: Course, r: PathResult)
    requires PathFound(PathAgent(cat, style, costWeights, starts, goal, DijkstraSearch, None), r) && r.success
    ensures Cheapest(SearchMap(cat, style, costWeights, starts), VirtualStart, goal, r.totalCost.value)
  {
    var g := WeightedGraph(cat, style, costWeights);
    WeightedGraphPositive(cat, style, costWeights);
    VirtualStartClosed(g, starts);
  }

  // ---------------------------------------------------------------------
  // Alternatives

  /** One entry of find_multiple_learning_paths. */
  datatype PathOption = PathOption(path: string, pathList: seq<Course>, totalCost: real, learningStyle: LearningStyle)

  /** The entries for the routes found, with the virtual start filtered out. */
  function Options(cs: seq<Candidate>, style: LearningStyle): (os: seq<PathOption>)
    ensures |os| == |cs|
  {
    seq(|cs|, i requires 0 <= i < |cs| =>
      PathOption(Join(WithoutVirtualStart(cs[i].path), Arrow), WithoutVirtualStart(cs[i].path), cs[i].cost, style))
  }

  /** Every route from the virtual start, cheapest first. */
  method RoutesFromStart(temp: Graph, goal: Course) returns (cs: seq<Candidate>)
    requires Closed(temp) && NonNegative(temp) && VirtualStart in temp && goal in temp
    ensures AllPaths(temp, VirtualStart, goal, None, cs)
    ensures AllRoutes(temp, VirtualStart, goal, cs, None) && SortedByCost(cs) && DistinctKeys(cs)
    ensures cs == [] <==> !Reachable(temp, VirtualStart, goal)
    ensures cs != [] ==> Cheapest(temp, VirtualStart, goal, cs[0].cost)
  {
    var all := FindAllPaths(temp, VirtualStart, goal, None);
    cs := all.value;
    if cs == [] {
      Hybrid.NoneWithinUnbounded(temp, VirtualStart, goal);
    } else {
      Hybrid.RouteReachable(temp, VirtualStart, goal, cs[0].path, cs[0].cost);
    }
  }

  /** The loop building the entries. */
  method CleanRoutes(cs: seq<Candidate>, style: LearningStyle) returns (results: seq<PathOption>)
    ensures results == Options(cs, style)
  {
    results := [];
    for i := 0 to |cs|
      invariant results == Options(cs[..i], style)
    {
      var clean := WithoutVirtualStart(cs[i].path);
      results := results + [PathOption(Join(clean, Arrow), clean, cs[i].cost, style)];
    }
    assert cs[..|cs|] == cs;
  }

  /** Each entry's course list is its route without the virtual start it
      begins with. */
  lemma OptionsStripped(g: Graph, goal: Course, cs: seq<Candidate>, style: LearningStyle)
    requires AllRoutes(g, VirtualStart, goal, cs, None)
    ensures forall i :: 0 <= i < |cs| ==> Options(cs, style)[i].pathList == cs[i].path[1..]
  {
    forall i | 0 <= i < |cs|
      ensures Options(cs, style)[i].pathList == cs[i].path[1..]
    {
      assert Route(g, VirtualStart, goal, cs[i].path, cs[i].cost);
      StripRoute(cs[i].path);
    }
  }

  /** find_multiple_learning_paths: every alternative route of the weighted
      graph from the virtual start, cheapest first, the virtual start
      filtered out. */
  method FindMultipleLearningPaths(cat: Catalog, starts: seq<Course>, goal: Course, style: LearningStyle,
                                   costWeights: Option<map<string, real>>)
    returns (r: Result<seq<PathOption>, AgentError>, ghost routes: seq<Candidate>)
    ensures goal !in SearchMap(cat, style, costWeights, starts) <==> r.Err?
    ensures r.Err? ==> r.error == GoalNotInRoutes(goal)
    ensures r.Ok? ==> r.value == Options(routes, style)
    ensures r.Ok? ==> AllPaths(SearchMap(cat, style, costWeights, starts), VirtualStart, goal, None, routes)
    ensures r.Ok? ==> AllRoutes(SearchMap(cat, style, costWeights, starts), VirtualStart, goal, routes, None) &&
                      SortedByCost(routes) && DistinctKeys(routes)
    ensures r.Ok? ==> (routes == [] <==> !Reachable(SearchMap(cat, style, costWeights, starts), VirtualStart, goal))
    ensures r.Ok? && routes != [] ==> Cheapest(SearchMap(cat, style, costWeights, starts), VirtualStart, goal, routes[0].cost)
    ensures r.Ok? ==> forall i :: 0 <= i < |routes| ==> r.value[i].pathList == routes[i].path[1..]
  {
    routes := [];
    var weighted := BuildWeightedGraph(cat, style, costWeights);
    var temp := AddVirtualStart(weighted, starts);
    WeightedGraphPositive(cat, style, costWeights);
    VirtualStartClosed(weighted, starts);
    assert temp == SearchMap(cat, style, costWeights, starts);
    var agent := NewAgent(temp, VirtualStart, goal, None, DijkstraSearch);
    if agent.Err? {
      return Err(agent.error), routes;
    }
    var cs := RoutesFromStart(temp, goal);
    routes := cs;
    var results := CleanRoutes(cs, style);
    OptionsStripped(temp, goal, cs, style);
    r := Ok(results);
  }

  // ---------------------------------------------------------------------
  // Path metrics

  /** The hours of the listed courses that have attributes. */
  function TotalTime(attributes: Table<Attributes>, courses: seq<Course>): nat
  {
    if |courses| == 0 then 0
    else (match Lookup(attributes, courses[0]) case Some(a) => a.timeHours case None => 0) + TotalTime(attributes, courses[1..])
  }

  /** The difficulties of the listed courses that have attributes. */
  function TotalDifficulty(attributes: Table<Attributes>, courses: seq<Course>): int
  {
    if |courses| == 0 then 0
    else (match Lookup(attributes, courses[0]) case Some(a) => a.difficulty case None => 0) + TotalDifficulty(attributes, courses[1..])
  }

  /** The summed difficulty over the length of the list, or 0 for none. */
  function AverageDifficulty(attributes: Table<Attributes>, courses: seq<Course>): real
  {
    if |courses| == 0 then 0.0 else TotalDifficulty(attributes, courses) as real / |courses| as real
  }

  predicate DifficultiesWithin(attributes: Table<Attributes>, hi: int)
  {
    forall i :: 0 <= i < |attributes| ==> 0 <= attributes[i].1.difficulty <= hi
  }

  lemma {:induction false} TotalDifficultyWithin(attributes: Table<Attributes>, courses: seq<Course>, hi: int)
    requires DifficultiesWithin(attributes, hi) && hi >= 0
    ensures 0 <= TotalDifficulty(attributes, courses) <= hi * |courses|
    decreases |courses|
  {
    if |courses| > 0 {
      TotalDifficultyWithin(attributes, courses[1..], hi);
      var d := match Lookup(attributes, courses[0]) case Some(a) => a.difficulty case None => 0;
      assert 0 <= d <= hi by {
        match Lookup(attributes, courses[0])
        case None =>
        case Some(a) =>
          var i :| 0 <= i < |attributes| && attributes[i] == (courses[0], a);
      }
      AddWithin(TotalDifficulty(attributes, courses[1..]), d, hi, |courses[1..]|, TotalDifficulty(attributes, courses), |courses|);
    }
  }

  /** One more value in [0, hi] keeps a sum of n such values within n * hi. */
  lemma AddWithin(t: int, d: int, hi: int, n: nat, t': int, m: nat)
    requires 0 <= t <= hi * n && 0 <= d <= hi && t' == d + t && m == n + 1
    ensures 0 <= t' <= hi * m
  {
  }

  /** With every difficulty in [0, hi], so is the average of a path. */
  lemma AverageWithin(attributes: Table<Attributes>, courses: seq<Course>, hi: int)
    requires DifficultiesWithin(attributes, hi) && hi >= 0
    ensures 0.0 <= AverageDifficulty(attributes, courses) <= hi as real
  {
    if |courses| > 0 {
      TotalDifficultyWithin(attributes, courses, hi);
      QuotientWithin(TotalDifficulty(attributes, courses), hi, |courses|);
    }
  }

  lemma QuotientWithin(t: int, hi: int, n: nat)
    requires n > 0 && 0 <= t <= hi * n
    ensures 0.0 <= t as real / n as real <= hi as real
  {
    var q := t as real / n as real;
    assert q * n as real == t as real;
    assert (hi * n) as real == hi as real * n as real;
  }

  /** The total hours of a list is the sum over any split of it. */
  lemma {:induction false} TotalTimeAppend(attributes: Table<Attributes>, a: seq<Course>, b: seq<Course>)
    ensures TotalTime(attributes, a + b) == TotalTime(attributes, a) + TotalTime(attributes, b)
    decreases |a|
  {
    if |a| > 0 {
      assert (a + b)[0] == a[0] && (a + b)[1..] == a[1..] + b;
      TotalTimeAppend(attributes, a[1..], b);
    } else {
      assert a + b == b;
    }
  }

  // ---------------------------------------------------------------------
  // The hybrid recommendation

  /** A penalty of minus the utility times the risk tolerance on each
      course harder than 7, of 0 on the other courses. */
  function RiskPenalties(attributes: Table<Attributes>, temp: Graph, riskTolerance: real): map<Node, real>
  {
    map c | c in Keys(attributes) && c in temp ::
      match Lookup(attributes, c)
      case Some(a) => if a.difficulty > 7 then -(a.utility as real) * riskTolerance else 0.0
      case None => 0.0
  }

  datatype AdvisorError = AgentFailed(cause: AgentError) | MissingKey(key: string) | UndefinedName(name: string)

  /** What recommend_course_sequence returns; a utility of None stands for
      minus infinity. */
  datatype Recommendation = Recommendation(success: bool, recommendedSequence: string, sequenceList: seq<Course>,
                                           utility: Option<real>, totalTimeHours: nat, averageDifficulty: real,
                                           startCourses: seq<Course>, goalCourse: Course, learningStyle: LearningStyle,
                                           riskTolerance: real, decisionInfo: UA.Info)

  /** What a recommendation promises on the route map g from the virtual
      start: success exactly when the goal is reachable, the sequence is the
      joined list, without the virtual start, and is a route from the
      virtual start less its first node; the metrics are those of the list. */
  ghost predicate Recommends(g: Graph, attributes: Table<Attributes>, goal: Course, r: Recommendation)
  {
    (r.success <==> Reachable(g, VirtualStart, goal)) &&
    r.goalCourse == goal &&
    r.recommendedSequence == Join(r.sequenceList, Arrow) && VirtualStart !in r.sequenceList &&
    r.totalTimeHours == TotalTime(attributes, r.sequenceList) &&
    r.averageDifficulty == AverageDifficulty(attributes, r.sequenceList) &&
    (!r.success ==> r.sequenceList == [] && r.utility.None? && r.decisionInfo == UA.NoInfo) &&
    (r.success ==> r.utility.Some?) &&
    (r.success && (forall c :: c in g && c != VirtualStart ==> Hybrid.NodeNameOk(c)) ==>
      exists p, cost :: Route(g, VirtualStart, goal, p, cost) && r.sequenceList == p[1..])
  }

  /** rec reports the chosen decision d as recommend_course_sequence copies
      it: the decision's node list without the virtual start, its utility
      and its decision info. */
  predicate Follows(rec: Recommendation, d: Hybrid.HybridDecision)
  {
    d.Chosen? && rec.success && rec.sequenceList == WithoutVirtualStart(d.pathAsList) &&
    rec.utility == Some(d.bestUtility) && rec.decisionInfo == d.decisionInfo
  }

  /** The factors recommend_course_sequence hands the hybrid agent. */
  function RiskFactors(attributes: Table<Attributes>, temp: Graph, riskTolerance: real): Hybrid.Factors
  {
    Hybrid.Factors(Some(-0.5), Some(RiskPenalties(attributes, temp, riskTolerance)))
  }

  /** The hybrid decision on the route map, with the metrics of its path;
      None when no path was found. */
  method RecommendFromDecision(temp: Graph, attributes: Table<Attributes>, starts: seq<Course>, goal: Course,
                               style: LearningStyle, riskTolerance: real)
    returns (r: Result<Option<Recommendation>, AgentError>, ghost d: Hybrid.HybridDecision, ghost all: seq<Candidate>)
    requires Closed(temp) && NonNegative(temp) && VirtualStart in temp
    ensures r.Err? <==> goal !in temp
    ensures r.Err? ==> r.error == GoalNotInRoutes(goal)
    ensures r.Ok? ==> (r.value.None? <==> !Reachable(temp, VirtualStart, goal))
    ensures r.Ok? && r.value.Some? ==>
      Recommends(temp, attributes, goal, r.value.value) && r.value.value.success &&
      r.value.value.startCourses == starts && r.value.value.learningStyle == style &&
      r.value.value.riskTolerance == riskTolerance
    ensures r.Ok? ==> Hybrid.DecidedOn(temp, VirtualStart, goal, RiskFactors(attributes, temp, riskTolerance), d, all) &&
                      (r.value.None? <==> d.NoPathFound?) && (r.value.Some? ==> Follows(r.value.value, d))
  {
    d := Hybrid.NoPathFound("");
    var decision; ghost var paths;
    decision, paths, all := Hybrid.RunAgent(temp, goal, RiskPenalties(attributes, temp, riskTolerance));
    if decision.Err? {
      return Err(decision.error), d, all;
    }
    d := decision.value;
    match decision.value
    case NoPathFound(_) =>
      r := Ok(None);
    case Chosen(_, nodes, utility, _, info, _) =>
      var clean := WithoutVirtualStart(nodes);
      if forall c :: c in temp && c != VirtualStart ==> Hybrid.NodeNameOk(c) {
        Hybrid.ReadBackStripped(temp, goal, paths, nodes);
      }
      var rec := Recommendation(true, Join(clean, Arrow), clean, Some(utility), TotalTime(attributes, clean),
                                AverageDifficulty(attributes, clean), starts, goal, style, riskTolerance, info);
      r := Ok(Some(rec));
  }

  /** With no path the hybrid decision has no 'path_as_list' entry, so
      recommend_course_sequence raises KeyError: it returns a
      recommendation only when the goal can be reached. */
  method RecommendCourseSequenceAsWritten(cat: Catalog, starts: seq<Course>, goal: Course, style: LearningStyle,
                                          riskTolerance: real, costWeights: Option<map<string, real>>)
    returns (r: Result<Recommendation, AdvisorError>, ghost d: Hybrid.HybridDecision, ghost all: seq<Candidate>)
    ensures goal !in SearchMap(cat, style, costWeights, starts) ==> r == Err(AgentFailed(GoalNotInRoutes(goal)))
    ensures goal in SearchMap(cat, style, costWeights, starts) &&
            !Reachable(SearchMap(cat, style, costWeights, starts), VirtualStart, goal) ==>
            r == Err(MissingKey("path_as_list"))
    ensures r.Ok? ==> r.value.success && Recommends(SearchMap(cat, style, costWeights, starts), cat.attributes, goal, r.value)
    ensures r.Ok? ==>
      var temp := SearchMap(cat, style, costWeights, starts);
      Hybrid.DecidedOn(temp, VirtualStart, goal, RiskFactors(cat.attributes, temp, riskTolerance), d, all) &&
      Follows(r.value, d)
  {
    var found;
    found, d, all := Recommend(cat, starts, goal, style, riskTolerance, costWeights);
    if found.Err? {
      return Err(AgentFailed(found.error)), d, all;
    }
    if found.value.None? {
      return Err(MissingKey("path_as_list")), d, all;
    }
    r := Ok(found.value.value);
  }

  /** recommend_course_sequence with the missing path read as an empty
      one: a failed recommendation instead of the KeyError. */
  method RecommendCourseSequence(cat: Catalog, starts: seq<Course>, goal: Course, style: LearningStyle,
                                 riskTolerance: real, costWeights: Option<map<string, real>>)
    returns (r: Result<Recommendation, AgentError>, ghost d: Hybrid.HybridDecision, ghost all: seq<Candidate>)
    ensures r.Err? <==> goal !in SearchMap(cat, style, costWeights, starts)
    ensures r.Err? ==> r.error == GoalNotInRoutes(goal)
    ensures r.Ok? ==> Recommends(SearchMap(cat, style, costWeights, starts), cat.attributes, goal, r.value)
    ensures r.Ok? ==> r.value.startCourses == starts && r.value.learningStyle == style &&
                      r.value.riskTolerance == riskTolerance
    ensures r.Ok? ==>
      var temp := SearchMap(cat, style, costWeights, starts);
      Hybrid.DecidedOn(temp, VirtualStart, goal, RiskFactors(cat.attributes, temp, riskTolerance), d, all) &&
      (if d.Chosen? then Follows(r.value, d) else !r.value.success)
  {
    var found;
    found, d, all := Recommend(cat, starts, goal, style, riskTolerance, costWeights);
    if found.Err? {
      return Err(found.error), d, all;
    }
    match found.value
    case None =>
      r := Ok(Recommendation(false, "", [], None, 0, 0.0, starts, goal, style, riskTolerance, UA.NoInfo));
    case Some(rec) =>
      r := Ok(rec);
  }

  /** The weighted graph with the virtual start, then the hybrid decision. */
  method Recommend(cat: Catalog, starts: seq<Course>, goal: Course, style: LearningStyle,
                   riskTolerance: real, costWeights: Option<map<string, real>>)
    returns (r: Result<Option<Recommendation>, AgentError>, ghost d: Hybrid.HybridDecision, ghost all: seq<Candidate>)
    ensures r.Err? <==> goal !in SearchMap(cat, style, costWeights, starts)
    ensures r.Err? ==> r.error == GoalNotInRoutes(goal)
    ensures r.Ok? ==> (r.value.None? <==> !Reachable(SearchMap(cat, style, costWeights, starts), VirtualStart, goal))
    ensures r.Ok? && r.value.Some? ==>
      Recommends(SearchMap(cat, style, costWeights, starts), cat.attributes, goal, r.value.value) &&
      r.value.value.success && r.value.value.startCourses == starts && r.value.value.learningStyle == style &&
      r.value.value.riskTolerance == riskTolerance
    ensures r.Ok? ==>
      var temp := SearchMap(cat, style, costWeights, starts);
      Hybrid.DecidedOn(temp, VirtualStart, goal, RiskFactors(cat.attributes, temp, riskTolerance), d, all) &&
      (r.value.None? <==> d.NoPathFound?) && (r.value.Some? ==> Follows(r.value.value, d))
  {
    var weighted := BuildWeightedGraph(cat, style, costWeights);
    var temp := AddVirtualStart(weighted, starts);
    WeightedGraphPositive(cat, style, costWeights);
    VirtualStartClosed(weighted, starts);
    assert temp == SearchMap(cat, style, costWeights, starts);
    r, d, all := RecommendFromDecision(temp, cat.attributes, starts, goal, style, riskTolerance);
  }

  /** A catalog where the goal is a course nobody has started towards: the
      goal is in the route map but cannot be reached, so the as-written
      recommendation raises for it. */
  lemma UnreachableGoalRaises()
    ensures var cat := Catalog([("B", [])], []);
      "B" in SearchMap(cat, Balanced, None, []) &&
      !Reachable(SearchMap(cat, Balanced, None, []), VirtualStart, "B")
  {
    var g := SearchMap(Catalog([("B", [])], []), Balanced, None, []);
    SampleRouteMap();
    if Reachable(g, VirtualStart, "B") {
      ReachInClosedSet(g, {VirtualStart}, VirtualStart, "B");
    }
  }

  /** The route map of that catalog: "B" is a key and the virtual start
      has no edges. */
  lemma SampleRouteMap()
    ensures var g := SearchMap(Catalog([("B", [])], []), Balanced, None, []);
      "B" in g && VirtualStart in g && g[VirtualStart] == []
  {
    var cat := Catalog([("B", [])], []);
    var w := WeightedGraph(cat, Balanced, None);
    assert cat.prerequisites[0].0 == "B";
    assert "B" in AllCourses(cat);
    assert StartEdges(w, []) == [];
  }

  // ---------------------------------------------------------------------
  // The primary path with its alternatives

  /** An alternative with its metrics. */
  datatype Alternative = Alternative(option: PathOption, totalTimeHours: nat, averageDifficulty: real)

  datatype WithAlternatives = WithAlternatives(primaryPath: PathResult, alternativePaths: seq<Alternative>,
                                               startCourses: seq<Course>, goalCourse: Course,
                                               learningStyle: LearningStyle)

  /** The options whose course list differs from the primary list, in
      order, each with its metrics. */
  function AlternativesOf(options: seq<PathOption>, primary: seq<Course>, attributes: Table<Attributes>): seq<Alternative>
  {
    if |options| == 0 then []
    else
      var o := options[|options| - 1];
      AlternativesOf(options[..|options| - 1], primary, attributes) +
      (if o.pathList != primary
       then [Alternative(o, TotalTime(attributes, o.pathList), AverageDifficulty(attributes, o.pathList))]
       else [])
  }

  /** An alternative is an option with a list other than the primary one,
      and every such option is an alternative, in the options' order. */
  lemma {:induction false} AlternativesMembers(options: seq<PathOption>, primary: seq<Course>, attributes: Table<Attributes>)
    ensures forall a :: a in AlternativesOf(options, primary, attributes) ==>
              a.option in options && a.option.pathList != primary &&
              a.totalTimeHours == TotalTime(attributes, a.option.pathList) &&
              a.averageDifficulty == AverageDifficulty(attributes, a.option.pathList)
    ensures forall o :: o in options && o.pathList != primary ==>
              exists a :: a in AlternativesOf(options, primary, attributes) && a.option == o
    ensures |AlternativesOf(options, primary, attributes)| <= |options|
    decreases |options|
  {
    if |options| > 0 {
      var init := options[..|options| - 1];
      AlternativesMembers(init, primary, attributes);
      assert options == init + [options[|options| - 1]];
      var o := options[|options| - 1];
      if o.pathList != primary {
        var a := Alternative(o, TotalTime(attributes, o.pathList), AverageDifficulty(attributes, o.pathList));
        assert a in AlternativesOf(options, primary, attributes);
      }
    }
  }

  /** The filter loop with the metrics. */
  method FilterAlternatives(options: seq<PathOption>, primary: seq<Course>, attributes: Table<Attributes>)
    returns (alts: seq<Alternative>)
    ensures alts == AlternativesOf(options, primary, attributes)
  {
    alts := [];
    for i := 0 to |options|
      invariant alts == AlternativesOf(options[..i], primary, attributes)
    {
      assert options[..i + 1][..i] == options[..i];
      if options[i].pathList != primary {
        var o := options[i];
        alts := alts + [Alternative(o, TotalTime(attributes, o.pathList), AverageDifficulty(attributes, o.pathList))];
      }
    }
    assert options[..|options|] == options;
  }

  /** get_learning_path_with_alternatives: the Dijkstra path by default
      weights, and the alternatives whose course list differs from it (from
      [] when it failed), each with its hours and average difficulty. */
  method GetLearningPathWithAlternatives(cat: Catalog, starts: seq<Course>, goal: Course, style: LearningStyle)
    returns (r: Result<WithAlternatives, AgentError>, ghost options: seq<PathOption>)
    ensures r.Err? <==> goal !in SearchMap(cat, style, None, starts)
    ensures r.Err? ==> r.error == GoalNotInRoutes(goal)
    ensures r.Ok? ==> r.value.startCourses == starts && r.value.goalCourse == goal && r.value.learningStyle == style
    ensures r.Ok? ==> PathFound(PathAgent(cat, style, None, starts, goal, DijkstraSearch, None), r.value.primaryPath) &&
                      r.value.primaryPath.algorithm == DijkstraSearch
    ensures r.Ok? ==> exists routes ::
      options == Options(routes, style) &&
      AllPaths(SearchMap(cat, style, None, starts), VirtualStart, goal, None, routes) &&
      AllRoutes(SearchMap(cat, style, None, starts), VirtualStart, goal, routes, None) &&
      SortedByCost(routes) && DistinctKeys(routes)
    ensures r.Ok? ==>
      r.value.alternativePaths == AlternativesOf(options, if r.value.primaryPath.success then r.value.primaryPath.pathList else [], cat.attributes)
  {
    options := [];
    var primary := FindLearningPath(cat, starts, goal, style, DijkstraSearch, None);
    if primary.Err? {
      return Err(primary.error), options;
    }
    var all, routes := FindMultipleLearningPaths(cat, starts, goal, style, None);
    options := all.value;
    var primaryList := if primary.value.success then primary.value.pathList else [];
    var alts := FilterAlternatives(all.value, primaryList, cat.attributes);
    r := Ok(WithAlternatives(primary.value, alts, starts, goal, style));
  }
}

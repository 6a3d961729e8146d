# Learning path advisor — a verified model of its planning core

This project models the planning core of the learning-path advisor backend in
Dafny, and proves properties of that model. The core has these parts:

- **Goal-based path search.** Dijkstra with lazy deletion, A* with a
  caller-supplied heuristic, unit-cost breadth-first search, and a simplified
  Yen-style enumeration of alternative paths. Alternatives come from graph
  copies with one path edge removed, then copies with one interior node
  removed; the results are de-duplicated and sorted by cost.
- **Utility arbiter.** Outcome validation, expected utility, and three choice
  strategies: maximum expected utility, minimax, and a risk-adjusted value
  (expected value minus standard deviation). It also builds a four-level risk
  classification.
- **Hybrid planner.** It turns the three cheapest paths into two-outcome
  actions, chooses among them by maximum expected utility, and reads the
  chosen path back out of the action's name.
- **Advisor.** It builds the style-weighted prerequisite graph and wires a
  zero-cost `virtual_start` node to every start course. Around that it
  answers catalogue queries, reports prerequisite status, evaluates the next
  courses, scores categories, assesses learning style, plans careers and
  analyses skill gaps.
- **LRU/TTL cache** with its statistics, and the key builder used by the
  caching decorator.
- **Performance monitor** with bounded per-key histories.
- **Request validators** of the HTTP server.

## Modules

- `wrappers.dfy` (`Wrappers`): `Option` and `Result`.
- `text.dfy` (`Text`):
  - `str.join` and `str.split` on `" -> "`;
  - the greedy `\((.*)\)` search;
  - decimal rendering of naturals;
  - ASCII lower-casing;
  - code-point order of strings.
- `graph.dfy` (`Graph`):
  - adjacency-list graphs `map<Node, seq<Edge>>`;
  - walks with their weight sequences, routes, reachability and cheapest cost;
  - edge and node removal.
- `pathsearch.dfy` (`PathSearch`):
  - one best-first search loop shared by Dijkstra (a zero heuristic) and A*;
  - an abstract priority queue kept as a sequence with extract-min;
  - back-pointer reconstruction;
  - breadth-first search.
- `goalagent.dfy` (`GoalAgent`): `AdvancedGoalBasedAgent`.
- `routelists.dfy` (`RouteLists`): the route lists `find_all_paths` returns, and the enumeration they stand for: which detours around the first route they list, and that they list nothing else.
- `utility.dfy` (`UtilityAgent`): `AdvancedUtilityBasedAgent`.
- `hybrid.dfy` (`Hybrid`):
  - `HybridAgent` as a class whose `best_paths` field is updated in place;
  - `LearningPathAdvisorWithHybridAgent` as a class.
- `coursegraph.dfy` (`CourseGraph`):
  - catalogue tables in dictionary insertion order;
  - graph building loops;
  - the `virtual_start` wiring and its stripping.
- `learningpaths.dfy` (`LearningPaths`): the advisor's weighted graph, and its path, alternatives and recommendation operations.
- `advisor.dfy` (`Advisor`): the advisor's catalogue queries, option evaluation, category scoring, style assessment, career plan and skill gap.
- `cache.dfy` (`Cache`): `CacheEntry`, `InMemoryCache` (a class), `cache_key` and the `cached` wrapper.
- `monitor.dfy` (`Monitor`): `PerformanceMonitor` (a class) and its statistics.
- `server.dfy` (`Server`):
  - `validate_input` and `validate_courses_exist`;
  - the order in which the `/api/path` route applies them.

The course catalogue is a parameter (`Catalog`): a prerequisite table and an
attribute table, each a sequence of (name, value) pairs in dictionary order.
Weights, probabilities and utilities are `real`. `sqrt` is a parameter
constrained by `SqrtLike`: zero at zero, and on a non-negative argument a
non-negative value whose square is the argument.

The hybrid planner's name round trip is proved under `NodeNameOk`. That
condition excludes names containing `" -> "` or a newline. It also
excludes names ending in `" ->"`, because such a name joins to the same text
as a different list (`Text.JoinNotInjective`). The advisor's own names
(`virtual_start` and the catalogue's courses) meet this condition.

## Model

| member | source | states |
|---|---|---|
| GoalAgent.NewAgent | learning-path-advisor/backend/advanced_goal_based_agent.py:16-50 | construction succeeds iff start and goal are keys of the routes (otherwise the matching error); dangling edge targets do not make it fail |
| GoalAgent.Dijkstra | learning-path-advisor/backend/advanced_goal_based_agent.py:52-97 | on a closed graph no error; a found path starts at start, ends at goal, follows edges, and its cost is the sum of their weights; with non-negative weights no route is cheaper; NoPath exactly when the goal is unreachable; an error names a missing edge target |
| PathSearch.BestFirst | learning-path-advisor/backend/advanced_goal_based_agent.py:59-84 | the shared search loop: a found result is a route whose cost is the weight sum, and it is the cheapest whenever the heuristic is consistent; NoPath iff unreachable |
| PathSearch.PopIndex | learning-path-advisor/backend/advanced_goal_based_agent.py:67 | extract-min: the popped entry is at most every queued entry in (key, node) order |
| PathSearch.PoppedKeyIsLeast | learning-path-advisor/backend/advanced_goal_based_agent.py:67 | the popped entry has the least key in the queue |
| PathSearch.Reconstruct | learning-path-advisor/backend/advanced_goal_based_agent.py:86-97 | following back pointers ends at a node without one and yields a chain of distinct nodes |
| GoalAgent.AStar | learning-path-advisor/backend/advanced_goal_based_agent.py:99-153 | without a heuristic the result is exactly the ValueError; otherwise a found path is a route with its weight sum, and it is the cheapest when the heuristic is consistent |
| GoalAgent.SameOptimalCost | learning-path-advisor/backend/advanced_goal_based_agent.py:99-153 | two cheapest routes between the same nodes have equal cost, so Dijkstra and A* with a consistent heuristic agree on cost |
| Graph.NonNegativeIsConsistent | learning-path-advisor/backend/advanced_goal_based_agent.py:59-84 | the zero heuristic is consistent on a graph with non-negative weights, which makes Dijkstra the zero-heuristic case of A* |
| Graph.WalkCostBound | learning-path-advisor/backend/advanced_goal_based_agent.py:134-140 | under a consistent heuristic every walk costs at least the heuristic drop from its first node to its last |
| PathSearch.Bfs | learning-path-advisor/backend/advanced_goal_based_agent.py:155-191 | a found path follows edges from start to goal without repeating a node; its cost is its hop count, and no path has fewer hops; NoPath iff unreachable |
| Graph.RemoveEdgeWalks | learning-path-advisor/backend/advanced_goal_based_agent.py:218-223 | a walk exists after removing every (u, v) edge iff it exists in the original and never steps from u to v |
| Graph.RemoveNodeWalks | learning-path-advisor/backend/advanced_goal_based_agent.py:248-252 | a walk from a node other than n exists after removing n iff it exists in the original and avoids n |
| Graph.RemoveEdgeClosed | learning-path-advisor/backend/advanced_goal_based_agent.py:218-223 | removing edges keeps a closed graph closed and non-negative weights non-negative |
| Graph.RemoveNodeClosed | learning-path-advisor/backend/advanced_goal_based_agent.py:248-252 | removing a node's edges keeps a closed graph closed and non-negative weights non-negative |
| GoalAgent.EdgeAlternative | learning-path-advisor/backend/advanced_goal_based_agent.py:216-243 | an edge-removal alternative is a route of the original graph that never takes the removed step |
| GoalAgent.NodeAlternative | learning-path-advisor/backend/advanced_goal_based_agent.py:247-264 | a node-removal alternative is a route of the original graph that never visits the removed node |
| GoalAgent.EdgeAlternatives | learning-path-advisor/backend/advanced_goal_based_agent.py:213-237 | the i-th recorded detour is what Dijkstra finds within max_cost on the map without the i-th step of the first route (cheapest there when weights are non-negative; none only when nothing there is within max_cost); it is kept iff found and its node list differs from the first route's |
| GoalAgent.NodeAlternatives | learning-path-advisor/backend/advanced_goal_based_agent.py:247-264 | the k-th recorded detour is what Dijkstra finds within max_cost on the map with the k-th interior node cut out; it is appended iff found and its node list is new; the list stays routes within max_cost, headed by the first route |
| GoalAgent.UniqueByKey | learning-path-advisor/backend/advanced_goal_based_agent.py:266-273 | de-duplication keeps one entry per node sequence, drops no sequence, and keeps the first entry first |
| GoalAgent.SortByCost | learning-path-advisor/backend/advanced_goal_based_agent.py:273 | sorting keeps exactly the same entries |
| GoalAgent.SortSorted | learning-path-advisor/backend/advanced_goal_based_agent.py:273 | the sorted list is ascending by cost |
| GoalAgent.SortDistinct | learning-path-advisor/backend/advanced_goal_based_agent.py:273 | sorting keeps node sequences distinct |
| GoalAgent.SortHead | learning-path-advisor/backend/advanced_goal_based_agent.py:273 | an entry no costlier than all others stays first after the stable sort |
| GoalAgent.NothingWithin | learning-path-advisor/backend/advanced_goal_based_agent.py:204-207 | no path, or a cheapest cost above max_cost, means no route lies within max_cost |
| GoalAgent.Detour | learning-path-advisor/backend/advanced_goal_based_agent.py:226-234 | one Dijkstra run on a modified map: a route within max_cost (cheapest with non-negative weights), or none, and then no walk within max_cost when weights are non-negative |
| GoalAgent.EdgeDetourListed | learning-path-advisor/backend/advanced_goal_based_agent.py:213-243 | with non-negative weights, if the map without a step of the first route still has a walk within max_cost, the list holds a route of the original map that avoids that step and is cheapest without it |
| GoalAgent.NodeDetourListed | learning-path-advisor/backend/advanced_goal_based_agent.py:247-264 | with non-negative weights, if the map without an interior node of the first route still has a walk within max_cost, the list holds a route of the original map that avoids that node and is cheapest without it |
| GoalAgent.ListedAreDetours | learning-path-advisor/backend/advanced_goal_based_agent.py:209-275 | every listed entry is a route within max_cost, and it is the first route, avoids one of its steps, or avoids one of its interior nodes |
| GoalAgent.FindAllPaths | learning-path-advisor/backend/advanced_goal_based_agent.py:193-275 | empty iff the first Dijkstra run finds nothing within max_cost; otherwise the list enumerates that route's detours: it holds the route, lists by joined text every detour found around one of its steps or interior nodes, and nothing else; every entry is a route within max_cost, sorted ascending by cost, no joined text twice; with non-negative weights the head is a cheapest route and an empty list means no walk is within max_cost |
| GoalAgent.Alternatives | learning-path-advisor/backend/advanced_goal_based_agent.py:209-275 | from the first route the edge loop, the sort and append, the node loop, de-duplication and the final sort give exactly that enumeration, headed by the first route when it is cheapest |
| GoalAgent.Search | learning-path-advisor/backend/advanced_goal_based_agent.py:284-292 | dispatch on the algorithm, unknown values falling back to Dijkstra: NoPath iff unreachable, a found path is a route of the chosen search, A* without a heuristic fails |
| GoalAgent.MakePlan | learning-path-advisor/backend/advanced_goal_based_agent.py:277-297 | the plan text is the found route joined by " -> "; no plan exactly when the goal is unreachable |
| GoalAgent.PlanTextReadsBack | learning-path-advisor/backend/advanced_goal_based_agent.py:303-305 | for safe node names, splitting the plan text on " -> " gives back the node list (the lone empty name reads back as no nodes) |
| GoalAgent.PathDetails | learning-path-advisor/backend/advanced_goal_based_agent.py:299-333 | success iff the goal is reachable; failure carries the no-path message and empty lists; success carries the plan's node list and cost, and as alternatives exactly find_all_paths' enumeration up to twice that cost |
| GoalAgent.FoundDetails | learning-path-advisor/backend/advanced_goal_based_agent.py:321-333 | a found plan: its text read back into the node list, its cost, and find_all_paths' list up to twice that cost; KeyError only for a node missing from the map |
| GoalAgent.DemoCheapest | learning-path-advisor/backend/advanced_goal_based_agent.py:339-346 | on the demo graph the only cheapest A-to-F route is A, B, E, F with cost 6 |
| GoalAgent.DemoPlan | learning-path-advisor/backend/advanced_goal_based_agent.py:339-355 | the demo's Dijkstra plan is "A -> B -> E -> F" with cost 6 |
| UtilityAgent.FirstOutcomeError | learning-path-advisor/backend/advanced_utility_based_agent.py:41-46 | an action's outcome list is rejected iff some outcome lacks probability or utility or has a probability outside [0, 1] |
| UtilityAgent.ValidateActions | learning-path-advisor/backend/advanced_utility_based_agent.py:34-53 | the error is the first failing action's (no outcomes, missing key, probability out of range); success keeps every action and its outcomes |
| UtilityAgent.NewAgent | learning-path-advisor/backend/advanced_utility_based_agent.py:16-32 | construction succeeds iff every action passes validation |
| UtilityAgent.CalculateExpectedUtility | learning-path-advisor/backend/advanced_utility_based_agent.py:55-74 | the accumulator loop returns the sum of probability times transformed utility |
| UtilityAgent.ExpectedUtilityBounds | learning-path-advisor/backend/advanced_utility_based_agent.py:65-74 | with non-negative probabilities the expected utility lies between the least and the greatest transformed utility, each scaled by the total probability |
| UtilityAgent.ExpectedUtilityBetween | learning-path-advisor/backend/advanced_utility_based_agent.py:65-74 | with non-negative probabilities the expected utility lies between the probability-weighted sums of the least and of the greatest transformed utility |
| UtilityAgent.WeightedIsProduct | learning-path-advisor/backend/advanced_utility_based_agent.py:65-74 | the probability-weighted sum of a constant is that constant times the total probability |
| UtilityAgent.VarianceNonNegative | learning-path-advisor/backend/advanced_utility_based_agent.py:115 | the variance is never negative |
| UtilityAgent.EvkAdjustment | learning-path-advisor/backend/advanced_utility_based_agent.py:107-121 | the risk-adjusted value never exceeds the mean and equals it iff the variance is zero |
| UtilityAgent.FirstMax | learning-path-advisor/backend/advanced_utility_based_agent.py:147 | the chosen index holds the greatest value and no earlier index holds it (Python max keeps the first) |
| UtilityAgent.MinimaxDecision | learning-path-advisor/backend/advanced_utility_based_agent.py:76-94 | the chosen action's worst outcome is at least every other action's worst, ties to the first; the transform plays no part |
| UtilityAgent.EvkDecision | learning-path-advisor/backend/advanced_utility_based_agent.py:96-126 | the chosen action maximises mean minus standard deviation, ties to the first |
| UtilityAgent.Decide | learning-path-advisor/backend/advanced_utility_based_agent.py:128-169 | MEU picks the first action of greatest expected utility, and no actions give "No valid actions" with minus infinity; minimax and EVK return their strategy's choice |
| UtilityAgent.RiskLevelOf | learning-path-advisor/backend/advanced_utility_based_agent.py:208-219 | risk-free iff no spread; low iff E > 0 and sd/E < 0.5; medium iff E > 0 and 0.5 ≤ sd/E < 1; high otherwise |
| UtilityAgent.ProfileFacts | learning-path-advisor/backend/advanced_utility_based_agent.py:184-204 | variance, standard deviation and utility range are non-negative; the coefficient of variation is infinite iff E = 0 |
| UtilityAgent.AnalyzeRiskProfile | learning-path-advisor/backend/advanced_utility_based_agent.py:171-206 | one profile per action, in action order, each the action's own profile |
| UtilityAgent.DemoMeu | learning-path-advisor/backend/advanced_utility_based_agent.py:225-242 | on the demo actions MEU selects "Moderate Investment" with value 50 |
| UtilityAgent.DemoMinimax | learning-path-advisor/backend/advanced_utility_based_agent.py:225-242 | on the demo actions minimax selects "Conservative Investment" with worst case 30 |
| Hybrid.HybridAgent.constructor | learning-path-advisor/backend/hybrid_agent.py:18-38 | the agent holds the routes, endpoints and factors, with no best paths yet |
| Hybrid.HybridAgent.FindMultiplePaths | learning-path-advisor/backend/hybrid_agent.py:40-52 | best_paths becomes the returned list: the first min(max(num_paths, 0), n) entries of find_all_paths' enumeration of n routes |
| Hybrid.HybridAgent.PrefixKeeps | learning-path-advisor/backend/hybrid_agent.py:46-52 | a prefix of the enumeration is still routes, sorted and distinct |
| Hybrid.ComplicationProbability | learning-path-advisor/backend/hybrid_agent.py:73-74 | the complication probability lies in [0.1, 0.4] |
| Hybrid.SuccessProbability | learning-path-advisor/backend/hybrid_agent.py:73-75 | success and complication probabilities sum to 1, success lying in [0.6, 0.9] |
| Hybrid.HybridAgent.ApplyEvaluationFactors | learning-path-advisor/backend/hybrid_agent.py:110-127 | the loop's result is base plus length factor times length plus the listed penalty of every node occurrence |
| Hybrid.PenaltyPerOccurrence | learning-path-advisor/backend/hybrid_agent.py:122-125 | one listed node contributes its penalty once per occurrence on the path |
| Hybrid.PenaltyNoneListed | learning-path-advisor/backend/hybrid_agent.py:122-125 | nodes absent from node_penalties add nothing |
| Hybrid.AdjustedWithoutFactors | learning-path-advisor/backend/hybrid_agent.py:110-127 | with no factors the utility is unchanged |
| Hybrid.PathUtility | learning-path-advisor/backend/hybrid_agent.py:78-95 | a path action's expected utility weighs the adjusted success utility and the unadjusted −1.5·cost complication utility by their probabilities |
| Hybrid.CheaperPreferred | learning-path-advisor/backend/hybrid_agent.py:73-95 | without factors, of two paths with the same hop count the cheaper has the higher expected utility |
| Hybrid.ActionNamesDistinct | learning-path-advisor/backend/hybrid_agent.py:68 | actions for different positions never share a name |
| Hybrid.ActionNameReadsBack | learning-path-advisor/backend/hybrid_agent.py:153-162 | parsing an action name gives back exactly its node list, for names meeting NodeNameOk |
| Hybrid.HybridAgent.EvaluatePathsWithUtility | learning-path-advisor/backend/hybrid_agent.py:54-108 | one action per path; no paths give "No valid actions"; otherwise the MEU choice among the actions |
| Hybrid.HybridAgent.MakeDecision | learning-path-advisor/backend/hybrid_agent.py:129-172 | find_multiple_paths(3) on the complete find_all_paths enumeration, of which the first three routes are considered; no route gives the no-path result with its message; otherwise the decision is the maximum-expected-utility choice among their actions, with their evaluation and decision info, and the chosen name parses back to one of their paths |
| Hybrid.ChosenReadsBack | learning-path-advisor/backend/hybrid_agent.py:153-162 | the chosen action's name parses to the node list of one of the considered paths |
| Hybrid.DecidedBestRoute | learning-path-advisor/backend/hybrid_agent.py:137-172 | a chosen decision takes one of the first three enumerated routes, read back intact, and no considered route has a higher expected utility |
| Hybrid.BuildCourseGraph | learning-path-advisor/backend/hybrid_agent.py:194-208 | KeyError naming the first course with a prerequisite in the graph but no attributes; otherwise one edge prerequisite → course per listed prerequisite that is a course, weighted by the course's difficulty |
| Hybrid.CourseGraphWeights | learning-path-advisor/backend/hybrid_agent.py:200-206 | once built, every edge goes to a course with attributes and weighs its difficulty, so the default weight never occurs |
| CourseGraph.LackingIsMissing | learning-path-advisor/backend/hybrid_agent.py:200-206 | the course whose difficulty lookup fails is a prerequisite-table course without attributes, and none fails when every such course has attributes |
| CourseGraph.NoneLacking | learning-path-advisor/backend/hybrid_agent.py:200-206 | when no lookup fails, every course listing a prerequisite in the graph has attributes |
| Hybrid.CourseGraphClosed | learning-path-advisor/backend/hybrid_agent.py:194-208 | that graph is closed, and non-negative when difficulties are |
| Hybrid.LearningPathAdvisorWithHybridAgent.constructor | learning-path-advisor/backend/hybrid_agent.py:179-192 | the advisor holds the catalogue and its course graph, when building that graph does not raise KeyError |
| Hybrid.LearningPathAdvisorWithHybridAgent.FindOptimalLearningPath | learning-path-advisor/backend/hybrid_agent.py:210-261 | virtual_start is added to both tables when missing; the result fails iff the goal is not a node; otherwise it reports the hybrid decision taken on the course graph joined to virtual_start with length factor -0.5 and penalties of minus a tenth of each utility: no path gives success false, path None and empty lists; a chosen route gives its node list without virtual_start as path list and path text, and the decision's utility, evaluated paths and decision info |
| Hybrid.RunAgent | learning-path-advisor/backend/hybrid_agent.py:229-241 | the decision fails iff the goal is not a node; otherwise it is the hybrid agent's decision under length factor -0.5 and the given penalties over the first three routes of the complete enumeration from virtual_start, no path iff the goal is unreachable |
| Hybrid.SearchFromVirtualStart | learning-path-advisor/backend/hybrid_agent.py:215-261 | the result reports the decision of RunAgent on the graph joined to virtual_start: success iff a start course reaches the goal, the chosen route without virtual_start as path list and text, and the decision's utility, evaluated paths and decision info |
| LearningPaths.OverridesKeyByKey | learning-path-advisor/backend/enhanced_learning_path_advisor.py:441-464 | a caller weight replaces the style default for its key only; other keys are ignored; an empty override equals no override |
| LearningPaths.Normalised | learning-path-advisor/backend/enhanced_learning_path_advisor.py:466-472 | normalised weights sum to 1; an all-zero total falls back to difficulty only |
| LearningPaths.NormalisedProportional | learning-path-advisor/backend/enhanced_learning_path_advisor.py:466-472 | with a non-zero total, each normalised weight times the total is the raw weight |
| LearningPaths.DefaultsNormalised | learning-path-advisor/backend/enhanced_learning_path_advisor.py:441-450 | the style default tables already sum to 1 |
| LearningPaths.EdgeWeight | learning-path-advisor/backend/enhanced_learning_path_advisor.py:477-493 | every edge weight is positive: the mix when positive, otherwise max(difficulty, 1) |
| LearningPaths.BuildWeightedGraph | learning-path-advisor/backend/enhanced_learning_path_advisor.py:425-497 | the nested loops build exactly the style-weighted prerequisite graph |
| LearningPaths.WeightedGraphPositive | learning-path-advisor/backend/enhanced_learning_path_advisor.py:436-495 | the weighted graph is closed and all its weights are positive |
| LearningPaths.WeightedGraphEdgeCount | learning-path-advisor/backend/enhanced_learning_path_advisor.py:474-495 | a node has exactly as many edges to a course as it is listed among that course's prerequisites |
| CourseGraph.AddPrerequisiteEdges | learning-path-advisor/backend/enhanced_learning_path_advisor.py:474-495 | the loop appends, to each node, the edges to the courses that list it |
| CourseGraph.EdgesFromEdges | learning-path-advisor/backend/enhanced_learning_path_advisor.py:474-476 | an edge leaves u iff u is listed as a prerequisite of its destination |
| LearningPaths.BuildCourseGraph | learning-path-advisor/backend/enhanced_learning_path_advisor.py:406-423 | the difficulty graph, or the KeyError of the first prerequisite-table course without attributes |
| LearningPaths.DifficultyGraphEdges | learning-path-advisor/backend/enhanced_learning_path_advisor.py:416-421 | every edge of the difficulty graph points at a node and weighs the destination's difficulty |
| CourseGraph.AddVirtualStart | learning-path-advisor/backend/enhanced_learning_path_advisor.py:522-525 | virtual_start gets the wiring of the start courses, nothing else changes |
| CourseGraph.StartEdgesMembers | learning-path-advisor/backend/enhanced_learning_path_advisor.py:522-525 | the wiring has a zero-cost edge to a course iff it is a start course present in the graph |
| CourseGraph.StartEdgesOrder | learning-path-advisor/backend/enhanced_learning_path_advisor.py:522-525 | the wiring lists the present start courses in input order, one edge each |
| CourseGraph.VirtualStartReach | learning-path-advisor/backend/enhanced_learning_path_advisor.py:522-535 | from virtual_start a node is reachable iff it is reachable from some present start course |
| CourseGraph.WithoutVirtualStart | learning-path-advisor/backend/enhanced_learning_path_advisor.py:595 | filtering drops virtual_start and keeps every other node |
| CourseGraph.StripRoute | learning-path-advisor/backend/enhanced_learning_path_advisor.py:595 | on a route from virtual_start the filter removes only its first node |
| LearningPaths.StripStartJoin | learning-path-advisor/backend/enhanced_learning_path_advisor.py:537-541 | removing the "virtual_start -> " prefix leaves the join of the remaining nodes |
| LearningPaths.FindLearningPath | learning-path-advisor/backend/enhanced_learning_path_advisor.py:499-556 | a goal outside the graph is an error; with A* it always raises, no heuristic being passed; otherwise success iff reachable, a path list without virtual_start, empty on failure |
| LearningPaths.FindLearningPathCorrected | learning-path-advisor/backend/enhanced_learning_path_advisor.py:499-556 | the same with a zero heuristic for A*: an error only for a goal outside the graph |
| LearningPaths.CorrectedAStarCheapest | learning-path-advisor/backend/enhanced_learning_path_advisor.py:519-535 | a successful corrected A* result has the cheapest cost from the start courses |
| LearningPaths.DijkstraPathCheapest | learning-path-advisor/backend/enhanced_learning_path_advisor.py:519-535 | a successful Dijkstra result has the cheapest cost from the start courses |
| LearningPaths.SuccessFromSomeStart | learning-path-advisor/backend/enhanced_learning_path_advisor.py:522-547 | the goal is reachable from virtual_start iff it is reachable from some start course present in the catalogue |
| LearningPaths.FoundFromStart | learning-path-advisor/backend/enhanced_learning_path_advisor.py:537-549 | a found route's text, stripped of virtual_start, reads back to the route's other nodes |
| LearningPaths.FindMultipleLearningPaths | learning-path-advisor/backend/enhanced_learning_path_advisor.py:558-603 | one option per route of find_all_paths' enumeration on the search map, in its order: sorted, distinct, cheapest first, each path list the route without virtual_start |
| LearningPaths.OptionsStripped | learning-path-advisor/backend/enhanced_learning_path_advisor.py:593-601 | each option's path list is its route minus the virtual start |
| LearningPaths.RecommendCourseSequenceAsWritten | learning-path-advisor/backend/enhanced_learning_path_advisor.py:605-671 | an unreachable goal raises the KeyError for 'path_as_list'; otherwise the sequence, utility and decision info are those of the hybrid decision under the risk penalties, with the sequence's total time and average difficulty |
| LearningPaths.RecommendCourseSequence | learning-path-advisor/backend/enhanced_learning_path_advisor.py:605-671 | an error only for a goal outside the graph; no path gives an unsuccessful recommendation; otherwise the sequence is the hybrid agent's chosen route (under length factor -0.5 and the risk-tolerance penalties on courses harder than 7) without virtual_start, with the decision's utility and info, its total time and average difficulty |
| LearningPaths.TotalTimeAppend | learning-path-advisor/backend/enhanced_learning_path_advisor.py:654-655 | total time is additive over concatenation |
| LearningPaths.AverageWithin | learning-path-advisor/backend/enhanced_learning_path_advisor.py:656-665 | the average difficulty lies within the catalogue's difficulty range |
| LearningPaths.GetLearningPathWithAlternatives | learning-path-advisor/backend/enhanced_learning_path_advisor.py:758-802 | the primary Dijkstra result plus, in order, every option of find_all_paths' enumeration whose path list differs from the primary's, each with its total time and average difficulty |
| LearningPaths.AlternativesMembers | learning-path-advisor/backend/enhanced_learning_path_advisor.py:779-794 | every alternative is an enumerated option different from the primary path, with its metrics |
| Advisor.GetAvailableCourses | learning-path-advisor/backend/enhanced_learning_path_advisor.py:804-822 | the loop lists the catalogue's available courses in catalogue order |
| Advisor.AvailableMembers | learning-path-advisor/backend/enhanced_learning_path_advisor.py:814-822 | a course is listed iff it is not completed and all its prerequisites are |
| Advisor.CoursesByCategory | learning-path-advisor/backend/enhanced_learning_path_advisor.py:824-835 | exactly the courses whose category matches, ignoring ASCII case |
| Advisor.AllCategories | learning-path-advisor/backend/enhanced_learning_path_advisor.py:837-845 | the categories (Uncategorized when absent) strictly sorted, each once |
| Advisor.CoursesByDifficulty | learning-path-advisor/backend/enhanced_learning_path_advisor.py:847-859 | exactly the courses whose difficulty lies in the closed range, and nothing when max is below min |
| Advisor.PrerequisiteStatus | learning-path-advisor/backend/enhanced_learning_path_advisor.py:861-890 | an unknown course is an error with its message; otherwise completed and remaining prerequisites partition the list, each read off it in order, and met iff nothing remains |
| Advisor.DoneInOrder | learning-path-advisor/backend/enhanced_learning_path_advisor.py:880 | the completed prerequisites are read off the prerequisite list left to right |
| Advisor.LeftInOrder | learning-path-advisor/backend/enhanced_learning_path_advisor.py:881 | the remaining prerequisites are read off the prerequisite list left to right |
| Advisor.AvailableIffMet | learning-path-advisor/backend/enhanced_learning_path_advisor.py:804-890 | a course is available iff it is not completed and its prerequisite status says met |
| Advisor.SuccessChance | learning-path-advisor/backend/enhanced_learning_path_advisor.py:716-719 | the success probability is clamped to [0.1, 0.95] |
| Advisor.SuccessChanceFacts | learning-path-advisor/backend/enhanced_learning_path_advisor.py:716-719 | it grows with risk tolerance, a hard course never gets more than an easier one, and at tolerance 0.5 they get 0.9 and 0.6 |
| Advisor.CourseOutcomes | learning-path-advisor/backend/enhanced_learning_path_advisor.py:720-735 | two outcomes whose probabilities sum to 1 |
| Advisor.EvaluateLearningOptions | learning-path-advisor/backend/enhanced_learning_path_advisor.py:673-756 | KeyError naming the first available course without attributes; nothing available gives the no-course result; otherwise the utility agent's decision over one two-outcome action per available course, with each option's expected utility |
| Advisor.BuildCourseActions | learning-path-advisor/backend/enhanced_learning_path_advisor.py:700-737 | one action per course, in order, exactly when every course has attributes; otherwise the error names the first course without them (KeyError) |
| Advisor.Evaluate | learning-path-advisor/backend/enhanced_learning_path_advisor.py:740-756 | the recommendation is the strategy's choice over the actions, and the options and the risk analysis give each course's expected utility and risk profile in the courses' order |
| Advisor.Suitability | learning-path-advisor/backend/enhanced_learning_path_advisor.py:915-929 | score 0 iff every prerequisite is completed; no score iff some are needed and none is met; otherwise the met fraction, strictly between 0 and 1 |
| Advisor.Ranked | learning-path-advisor/backend/enhanced_learning_path_advisor.py:931 | the scores sorted descending, a permutation of the input |
| Advisor.RankedHead | learning-path-advisor/backend/enhanced_learning_path_advisor.py:931-941 | the head has the greatest score, so a partly available course beats a fully available one |
| Advisor.ScoreCourses | learning-path-advisor/backend/enhanced_learning_path_advisor.py:913-929 | KeyError naming the first category course without a prerequisites entry; otherwise every suitable course with its score |
| Advisor.LearningPathByCategoryAsWritten | learning-path-advisor/backend/enhanced_learning_path_advisor.py:903-916 | an empty category gives the category list; otherwise the first course's prerequisites lookup raises KeyError when it has no entry, and NameError on completed_courses when it has one |
| Advisor.LearningPathByCategory | learning-path-advisor/backend/enhanced_learning_path_advisor.py:892-953 | KeyError naming the first category course without a prerequisites entry; no course in the category gives the category list; no suitable course gives the inaccessible result; otherwise the path to the best-scored course and up to five suitable courses |
| Advisor.Recommend | learning-path-advisor/backend/enhanced_learning_path_advisor.py:940-953 | the recommended course is the best-ranked one, the path is the Dijkstra path to it from the start courses, and the alternatives are the first five ranked names |
| Advisor.AssessLearningStyle | learning-path-advisor/backend/enhanced_learning_path_advisor.py:1007-1065 | the style has a maximal score and no style earlier in the order FASTEST, EASIEST, CHALLENGING, BALANCED has the same score |
| Advisor.MaxStyle | learning-path-advisor/backend/enhanced_learning_path_advisor.py:1057-1065 | max over the scores dictionary: the style returned scores highest and every style listed before it scores strictly less |
| Advisor.FirstBestUnique | learning-path-advisor/backend/enhanced_learning_path_advisor.py:1065 | only one style meets that condition |
| Advisor.DefaultsGiveBalanced | learning-path-advisor/backend/enhanced_learning_path_advisor.py:1018-1065 | empty responses give BALANCED |
| Advisor.AmbitiousGivesChallenging | learning-path-advisor/backend/enhanced_learning_path_advisor.py:1028-1065 | minimum time, high tolerance and career advancement score FASTEST 2, CHALLENGING 3 and BALANCED 3, and the tie between CHALLENGING and BALANCED goes to CHALLENGING |
| Advisor.MostUseful | learning-path-advisor/backend/enhanced_learning_path_advisor.py:1143-1146 | the first course of greatest utility |
| Advisor.EstimatedMonths | learning-path-advisor/backend/enhanced_learning_path_advisor.py:1150-1159 | half the cost, capped by the horizon; no path means the horizon |
| Advisor.PlanCareerPath | learning-path-advisor/backend/enhanced_learning_path_advisor.py:1067-1180 | unknown career lists the known ones; missing courses with data give a plan toward the most useful one; only unmapped missing courses give the mapping error with the required and missing courses; none missing gives the qualified message and excellent; every branch but the first echoes the target career and current skills |
| Advisor.PlanTowards | learning-path-advisor/backend/enhanced_learning_path_advisor.py:1140-1161 | the plan echoes the target career, required courses and current skills, targets the first known missing course of greatest utility, carries the Dijkstra path to it from the current skills, the estimated months min(cost * 0.5, horizon) and the feasibility by the number of missing courses |
| Advisor.SkillGapAnalysis | learning-path-advisor/backend/enhanced_learning_path_advisor.py:1182-1234 | missing, extra and matched are the set differences and intersection; one entry per missing skill; severity by the missing count |
| Advisor.GapPartition | learning-path-advisor/backend/enhanced_learning_path_advisor.py:1195-1200 | missing and matched partition the target set; extra and matched partition the current set |
| Cache.NewEntry | learning-path-advisor/backend/cache.py:25-30 | a ttl of None or 0 becomes 3600; the entry is new and unaccessed |
| Cache.ExpiryFacts | learning-path-advisor/backend/cache.py:32-40 | a fresh entry is expired only for a negative ttl; expiry is monotone in time; access does not change it |
| Cache.Without | learning-path-advisor/backend/cache.py:97-104 | removal drops exactly the key, keeps the others in order and the keys distinct |
| Cache.GetStepFacts | learning-path-advisor/backend/cache.py:58-78 | a miss iff the key is absent, leaving the items; keys stay distinct and other keys keep their entries |
| Cache.GetExpired | learning-path-advisor/backend/cache.py:66-71 | an expired key is deleted and reported expired |
| Cache.GetHit | learning-path-advisor/backend/cache.py:73-78 | a hit returns the stored value and moves the accessed entry to the most recent place |
| Cache.SetMakesMostRecent | learning-path-advisor/backend/cache.py:80-95 | with max_size ≥ 1: no error, the key is the most recent entry holding the new value, and the size stays within max_size |
| Cache.SetKeepsValid | learning-path-advisor/backend/cache.py:80-95 | set keeps the keys distinct and, with a positive max_size, the size within it |
| Cache.SetEvictions | learning-path-advisor/backend/cache.py:84-91 | a new key on a full cache evicts exactly the least recent entry; overwriting never evicts |
| Cache.SetKeepsOthers | learning-path-advisor/backend/cache.py:80-95 | set leaves every other surviving key's entry unchanged |
| Cache.HitRate | learning-path-advisor/backend/cache.py:115-116 | hits over requests times 100, 0 without requests, within [0, 100] |
| Cache.InMemoryCache.constructor | learning-path-advisor/backend/cache.py:47-56 | an empty cache with zero counters |
| Cache.InMemoryCache.Get | learning-path-advisor/backend/cache.py:58-78 | a miss bumps misses only; an expired entry is deleted and bumps expirations; a hit bumps hits and returns the value |
| Cache.InMemoryCache.Set | learning-path-advisor/backend/cache.py:80-95 | the new items are those of the set step, evictions grow by the evictions made, the invariant holds |
| Cache.InMemoryCache.Delete | learning-path-advisor/backend/cache.py:97-104 | true iff the key was present; afterwards it is absent and the rest unchanged |
| Cache.InMemoryCache.Clear | learning-path-advisor/backend/cache.py:106-110 | no entries, counters kept |
| Cache.InMemoryCache.GetStats | learning-path-advisor/backend/cache.py:112-126 | the counters, size, max_size and hit rate, changing nothing |
| Cache.InMemoryCache.ResetStats | learning-path-advisor/backend/cache.py:128-136 | all counters zero, entries kept |
| Cache.SortByName | learning-path-advisor/backend/cache.py:146 | keyword parts sorted by name, a permutation of the input |
| Cache.ByNameUnique | learning-path-advisor/backend/cache.py:146 | two name-sorted permutations of keywords with distinct names are equal |
| Cache.CacheKeyOrderFree | learning-path-advisor/backend/cache.py:143-151 | the key does not depend on the order keywords were passed in |
| Cache.CacheKeyPositional | learning-path-advisor/backend/cache.py:143-151 | positional parts come first, in order |
| Cache.Cached | learning-path-advisor/backend/cache.py:167-181 | a stored non-None value is returned and counts one hit, with no other counter changed; otherwise the computed value is returned and stored, with the counters of the get and set it performs: one hit, miss or expiration, and one eviction when the set evicts |
| Cache.CachedValueReturned | learning-path-advisor/backend/cache.py:167-181 | a non-None value cached for one keyword order is a hit for the same call with keywords in any order until it expires |
| Cache.CacheClearAsWritten | learning-path-advisor/backend/cache.py:184 | deletes only the key name + ":" |
| Cache.CacheClearMissesCalls | learning-path-advisor/backend/cache.py:184 | a call with a positional argument other than a lone "" is never removed by it |
| Cache.WithoutPrefix | learning-path-advisor/backend/cache.py:184 | drops exactly the keys with the prefix, keeps the rest in order |
| Cache.CacheClear | learning-path-advisor/backend/cache.py:184 | afterwards no call key of the function remains |
| Monitor.EndpointKeyInjective | learning-path-advisor/backend/performance_monitor.py:60 | the "{method} {endpoint}" key tells requests apart for methods without a blank |
| Monitor.Trim | learning-path-advisor/backend/performance_monitor.py:52-53 | keeps the newest max_history records; 0 keeps everything |
| Monitor.TrimKeepsNewest | learning-path-advisor/backend/performance_monitor.py:52-53 | the kept records are the list's last ones in arrival order |
| Monitor.AppendLists | learning-path-advisor/backend/performance_monitor.py:46-55 | the named list becomes the trimmed list with the record appended; other lists are unchanged |
| Monitor.AppendBounded | learning-path-advisor/backend/performance_monitor.py:46-85 | with max_history ≥ 1 every list stays within max_history |
| Monitor.AppendTotal | learning-path-advisor/backend/performance_monitor.py:158-167 | appending adds at most one record to the total, exactly one when max_history is 0 |
| Monitor.TotalBounded | learning-path-advisor/backend/performance_monitor.py:158-167 | the record total is at most max_history times the number of keys |
| Monitor.Summarise | learning-path-advisor/backend/performance_monitor.py:118-129 | counts of all, successful and failed; min ≤ mean ≤ max, and min and max bound every duration |
| Monitor.MeanFacts | learning-path-advisor/backend/performance_monitor.py:127 | the mean lies between the minimum and the maximum duration |
| Monitor.MeanTimesCount | learning-path-advisor/backend/performance_monitor.py:127 | the mean times the count gives back the sum of the durations |
| Monitor.EndpointStats | learning-path-advisor/backend/performance_monitor.py:104-129 | None iff the endpoint is unknown or has no data; successful counts status 200 |
| Monitor.AlgorithmStats | learning-path-advisor/backend/performance_monitor.py:131-156 | None iff the algorithm is unknown or has no data; successful counts the success flag |
| Monitor.AllOk | learning-path-advisor/backend/performance_monitor.py:106-124 | over all endpoints the total is every record and nothing failed iff every status is 200 |
| Monitor.PerformanceMonitor.constructor | learning-path-advisor/backend/performance_monitor.py:40-44 | three empty maps |
| Monitor.PerformanceMonitor.RecordMetric | learning-path-advisor/backend/performance_monitor.py:46-55 | the metric's list becomes the old list plus the record, trimmed to max_history; the histories stay distinct and bounded |
| Monitor.PerformanceMonitor.RecordEndpoint | learning-path-advisor/backend/performance_monitor.py:57-70 | the "{method} {endpoint}" list becomes the old list plus the record, trimmed |
| Monitor.PerformanceMonitor.RecordAlgorithm | learning-path-advisor/backend/performance_monitor.py:72-85 | the algorithm's list becomes the old list plus the record, trimmed |
| Monitor.PerformanceMonitor.GetSummary | learning-path-advisor/backend/performance_monitor.py:158-167 | totals are the sums of list lengths and the key counts |
| Monitor.PerformanceMonitor.Clear | learning-path-advisor/backend/performance_monitor.py:169-174 | all three maps empty |
| Server.ValidateInput | learning-path-advisor/backend/server.py:96-105 | no error iff every field is present and not an empty list or string; otherwise the first failing field, missing iff absent |
| Server.OtherValuesPass | learning-path-advisor/backend/server.py:102-105 | numbers and other values pass |
| Server.ValidateCoursesExist | learning-path-advisor/backend/server.py:86-94 | no error iff every non-empty name is a catalogue course; otherwise the first unknown non-empty name |
| Server.StatusCode | learning-path-advisor/backend/server.py:108-121 | 200 for accepted, 400 for a field error, 404 for an unknown course |
| Server.CheckPathRequest | learning-path-advisor/backend/server.py:137-147 | field validation first, then courses; accepted requests name only known courses |
| Server.EmptyStartIsBadRequest | learning-path-advisor/backend/server.py:137-147 | an empty start list is a 400 even when other courses are unknown |
| Server.UnknownCourseIsNotFound | learning-path-advisor/backend/server.py:137-147 | with both fields well formed, an unknown course is a 404 naming the first such course |
| Text.SplitJoin | learning-path-advisor/backend/hybrid_agent.py:162 | splitting a join of safe names on " -> " gives the names back |
| Text.JoinNotInjective | learning-path-advisor/backend/hybrid_agent.py:162 | a name ending in " ->" breaks that round trip |
| Text.ParenGroupOfWrapped | learning-path-advisor/backend/hybrid_agent.py:156-160 | the greedy parenthesis search returns the body of a name wrapped in a '('-free head and a final ')' |
| Text.NatToStringInjective | learning-path-advisor/backend/hybrid_agent.py:68 | distinct positions render as distinct digits |

## Left out

- The thread lock in `cache.py` and every wall-clock read. The cache takes `now` as an argument; creation and access times are parameters; timestamps of metrics and summaries are dropped.
- Logging, `print`, warnings and the `run_*_demo` printing functions. The demo inputs survive as the lemmas above.
- Floating point: all weights, probabilities, durations and utilities are `real`, without IEEE rounding or infinities (`inf` is modelled with `Option`).
- `sqrt` is a parameter constrained by `SqrtLike`, not Python's `math.sqrt`.
- `json.dumps` in `cache_key` is abstracted: a list or dict argument is `Arg.Structured` carrying its rendered text.
- `statistics.stdev` and the `"%.2f"` formatting of durations and hit rate are not modelled.
- `Monitor.Summarise`: the standard deviation field is left out.
- `get_metric_stats` (performance_monitor.py:87-102) is not modelled.
- The `timed` and `timed_algorithm` decorators and the module-level monitor and cache helpers are not modelled. They are timing and global-instance wrappers.
- `Server.CheckPathRequest`: a body whose `start_courses` is not a list or whose `goal_course` is not a string ends as `OutsideModel`.
- Flask routing, CORS, the rate limiter and the request hooks of `server.py` are not part of this model. `database.py`, `db_seed.py`, `admin_cli.py`, `api_docs.py`, `config.py`, `setup.py` and `run.py` are not part of this model either.
- The course and career tables are parameters, not transcribed literals. Dictionary keys are modelled as unique, so a repeated literal key has simply overwritten the earlier one.
- `get_learning_progression` and the module-level convenience functions of the advisor are not modelled.
- PathSearch.BestFirst: which of several equal-cost paths is returned is not stated. Heap tie order is abstracted to (key, node) order.
- Advisor.Ranked: stability of Python's sort among equal scores is not stated, only descending order and permutation.
- GoalAgent.Dijkstra: on a graph that is not closed the contract says only that an error names a node missing from the graph, not on which graphs the KeyError occurs.
- Advisor.EvaluateLearningOptions: requires unique prerequisite keys, as a Python dictionary has.
- Advisor.AssessLearningStyle: responses are strings; non-string answers are not modelled.
- Text.Lower: only ASCII letters are lower-cased, standing in for `str.lower`.
- Hybrid.ActionNameReadsBack: proved only for names meeting `NodeNameOk`, which is stronger than "no `" -> "` and no newline" (see above).

## Findings

| source | as written | input that shows it | evidently intended | confidence | as-written member | corrected member |
|---|---|---|---|---|---|---|
| learning-path-advisor/backend/enhanced_learning_path_advisor.py:916 | reads `completed_courses`, which is not defined in `get_learning_path_by_category` (its parameter is `start_courses`) | any category whose first course has a prerequisites entry, e.g. "Data" with course "Python" listed with no prerequisites | use `start_courses` as the completed set | high, not executed | Advisor.CategoryPathAsWrittenFails | Advisor.LearningPathByCategory |
| learning-path-advisor/backend/enhanced_learning_path_advisor.py:528-535 | `find_learning_path` with the A* algorithm builds the agent without a heuristic, so `plan` raises ValueError whenever the goal is a node | catalogue A, B with B requiring A; start ["A"], goal "B", A* | pass a heuristic (zero gives Dijkstra's answer) | high, not executed | LearningPaths.AStarRaisesOnReachableGoal | LearningPaths.CorrectedAStarCheapest |
| learning-path-advisor/backend/enhanced_learning_path_advisor.py:651 | `recommend_course_sequence` reads `decision['path_as_list']`, which the no-path decision does not contain, so an unreachable goal raises KeyError | catalogue with course B only; no start courses; goal "B" | report an unsuccessful recommendation | high, not executed | LearningPaths.UnreachableGoalRaises | LearningPaths.RecommendCourseSequence |
| learning-path-advisor/backend/cache.py:184 | `cache_clear` deletes the single key `name + ":"`, which no call with arguments produces | a function called with argument "x" is cached under "f:x"; `cache_clear` leaves it | delete every key of the function | medium, not executed | Cache.CacheClearMissesCalls | Cache.CacheClear |

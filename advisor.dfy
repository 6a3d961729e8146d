/** The enhanced advisor's catalog queries: courses open to a learner, the
    courses of a category or difficulty range, the status of a course's
    prerequisites, the learning-style questionnaire, career planning and the
    skill-gap analysis. The catalog and the career table are parameters. */
module Advisor {
  import opened Wrappers
  import opened Pairs
  import opened Text
  import opened GoalAgent
  import opened RouteLists
  import opened CourseGraph
  import opened LearningPaths
  import opened PathSearch
  import UA = UtilityAgent

  // ---------------------------------------------------------------------
  // Available courses

  /** The course of the entry is not completed and all its prerequisites are. */
  predicate CanTake(entry: (Course, seq<Course>), completed: seq<Course>)
  {
    entry.0 !in completed && forall p :: p in entry.1 ==> p in completed
  }

  /** The courses of the table, in its order, that can be taken. */
  function Available(prereqs: Table<seq<Course>>, completed: seq<Course>): seq<Course>
  {
    if |prereqs| == 0 then []
    else
      Available(prereqs[..|prereqs| - 1], completed) +
      (if CanTake(prereqs[|prereqs| - 1], completed) then [prereqs[|prereqs| - 1].0] else [])
  }

  /** get_available_courses: the loop over the prerequisites table. */
  method GetAvailableCourses(prereqs: Table<seq<Course>>, completed: seq<Course>) returns (r: seq<Course>)
    ensures r == Available(prereqs, completed)
  {
    r := [];
    var completedSet := set c | c in completed;
    for i := 0 to |prereqs|
      invariant r == Available(prereqs[..i], completed)
    {
      assert prereqs[..i + 1][..i] == prereqs[..i];
      var course := prereqs[i].0;
      var ps := prereqs[i].1;
      if course !in completed && forall p :: p in ps ==> p in completedSet {
        r := r + [course];
      }
    }
    assert prereqs[..|prereqs|] == prereqs;
  }

  /** A course is available exactly when some entry for it can be taken. */
  lemma {:induction false} AvailableMembers(prereqs: Table<seq<Course>>, completed: seq<Course>, c: Course)
    ensures c in Available(prereqs, completed) <==>
            exists i :: 0 <= i < |prereqs| && prereqs[i].0 == c && CanTake(prereqs[i], completed)
    decreases |prereqs|
  {
    if |prereqs| > 0 {
      var init := prereqs[..|prereqs| - 1];
      AvailableMembers(init, completed, c);
      if c in Available(init, completed) {
        var i :| 0 <= i < |init| && init[i].0 == c && CanTake(init[i], completed);
        assert prereqs[i] == init[i];
      }
      if exists i :: 0 <= i < |prereqs| && prereqs[i].0 == c && CanTake(prereqs[i], completed) {
        var i :| 0 <= i < |prereqs| && prereqs[i].0 == c && CanTake(prereqs[i], completed);
        if i < |init| {
          assert init[i] == prereqs[i];
        }
      }
    }
  }

  /** No completed course is ever offered. */
  lemma {:induction false} AvailableNotCompleted(prereqs: Table<seq<Course>>, completed: seq<Course>)
    ensures forall c :: c in Available(prereqs, completed) ==> c !in completed
    ensures |Available(prereqs, completed)| <= |prereqs|
    decreases |prereqs|
  {
    if |prereqs| > 0 {
      AvailableNotCompleted(prereqs[..|prereqs| - 1], completed);
    }
  }

  // ---------------------------------------------------------------------
  // Categories and difficulty

  /** attrs.get('category', '') compared case-insensitively. */
  predicate InCategory(a: Attributes, category: string)
  {
    Lower(match a.category case Some(c) => c case None => "") == Lower(category)
  }

  /** get_courses_by_category: the courses of the attributes table in a
      category, in table order. */
  function CoursesByCategory(attributes: Table<Attributes>, category: string): (r: seq<Course>)
    ensures |r| <= |attributes|
    ensures forall c :: c in r <==> exists i :: 0 <= i < |attributes| && attributes[i].0 == c && InCategory(attributes[i].1, category)
  {
    if |attributes| == 0 then []
    else
      var rest := CoursesByCategory(attributes[1..], category);
      assert forall i :: 1 <= i < |attributes| ==> attributes[i] == attributes[1..][i - 1];
      (if InCategory(attributes[0].1, category) then [attributes[0].0] else []) + rest
  }

  /** get_course_by_difficulty_range: the courses with lo <= difficulty <= hi. */
  function CoursesByDifficulty(attributes: Table<Attributes>, lo: int, hi: int): (r: seq<Course>)
    ensures |r| <= |attributes|
    ensures forall c :: c in r <==>
      exists i :: 0 <= i < |attributes| && attributes[i].0 == c && lo <= attributes[i].1.difficulty <= hi
    ensures hi < lo ==> r == []
  {
    if |attributes| == 0 then []
    else
      var rest := CoursesByDifficulty(attributes[1..], lo, hi);
      assert forall i :: 1 <= i < |attributes| ==> attributes[i] == attributes[1..][i - 1];
      (if lo <= attributes[0].1.difficulty <= hi then [attributes[0].0] else []) + rest
  }

  /** A course's category, 'Uncategorized' when it has none. */
  function CategoryName(a: Attributes): string
  {
    match a.category case Some(c) => c case None => "Uncategorized"
  }

  predicate StrictlySorted(s: seq<string>)
  {
    forall i, j :: 0 <= i < j < |s| ==> StrLess(s[i], s[j])
  }

  /** x placed in a strictly sorted list unless already there. */
  function InsertSorted(x: string, s: seq<string>): (r: seq<string>)
    requires StrictlySorted(s)
    ensures StrictlySorted(r)
    ensures forall y :: y in r <==> y == x || y in s
  {
    if |s| == 0 then [x]
    else if x == s[0] then s
    else if StrLess(x, s[0]) then
      assert forall j :: 0 <= j < |s| ==> StrLess(x, s[j]) by {
        forall j | 0 <= j < |s| ensures StrLess(x, s[j]) {
          if j > 0 { StrLessTransitive(x, s[0], s[j]); }
        }
      }
      [x] + s
    else
      assert StrLess(s[0], x) by { StrLessTotal(x, s[0]); }
      var rest := InsertSorted(x, s[1..]);
      assert forall y :: y in rest ==> StrLess(s[0], y) by {
        forall y | y in rest ensures StrLess(s[0], y) {
          if y != x {
            var j :| 0 <= j < |s[1..]| && s[1..][j] == y;
            assert s[j + 1] == y;
          }
        }
      }
      [s[0]] + rest
  }

  /** get_all_categories: the distinct categories in sorted order. */
  function AllCategories(attributes: Table<Attributes>): (r: seq<string>)
    ensures StrictlySorted(r)
    ensures forall x :: x in r <==> exists i :: 0 <= i < |attributes| && CategoryName(attributes[i].1) == x
  {
    if |attributes| == 0 then []
    else
      var rest := AllCategories(attributes[..|attributes| - 1]);
      assert forall i :: 0 <= i < |attributes| - 1 ==> attributes[..|attributes| - 1][i] == attributes[i];
      InsertSorted(CategoryName(attributes[|attributes| - 1].1), rest)
  }

  /** Sorted without repeats, the list names each category once. */
  lemma CategoriesDistinct(attributes: Table<Attributes>)
    ensures forall i, j :: 0 <= i < j < |AllCategories(attributes)| ==> AllCategories(attributes)[i] != AllCategories(attributes)[j]
  {
    var r := AllCategories(attributes);
    forall i, j | 0 <= i < j < |r|
      ensures r[i] != r[j]
    {
      if r[i] == r[j] {
        StrLessIrreflexive(r[i]);
      }
    }
  }

  // ---------------------------------------------------------------------
  // Prerequisite status

  function PrereqsDone(ps: seq<Course>, completed: seq<Course>): (r: seq<Course>)
    ensures forall p :: p in r <==> p in ps && p in completed
  {
    if |ps| == 0 then [] else (if ps[0] in completed then [ps[0]] else []) + PrereqsDone(ps[1..], completed)
  }

  function PrereqsLeft(ps: seq<Course>, completed: seq<Course>): (r: seq<Course>)
    ensures forall p :: p in r <==> p in ps && p !in completed
  {
    if |ps| == 0 then [] else (if ps[0] !in completed then [ps[0]] else []) + PrereqsLeft(ps[1..], completed)
  }

  /** The two lists split the prerequisite list: together they hold each
      listing once. */
  lemma {:induction false} PrereqsPartition(ps: seq<Course>, completed: seq<Course>)
    ensures multiset(PrereqsDone(ps, completed)) + multiset(PrereqsLeft(ps, completed)) == multiset(ps)
    decreases |ps|
  {
    if |ps| > 0 {
      PrereqsPartition(ps[1..], completed);
      assert ps == [ps[0]] + ps[1..];
      SplitStep(ps[0], ps[1..], PrereqsDone(ps[1..], completed), PrereqsLeft(ps[1..], completed),
                PrereqsDone(ps, completed), PrereqsLeft(ps, completed));
    }
  }

  /** Putting x in front of one of two lists that split ps splits [x] + ps. */
  lemma SplitStep(x: Course, ps: seq<Course>, done: seq<Course>, left: seq<Course>, done': seq<Course>, left': seq<Course>)
    requires multiset(done) + multiset(left) == multiset(ps)
    requires (done' == [x] + done && left' == left) || (done' == done && left' == [x] + left)
    ensures multiset(done') + multiset(left') == multiset([x] + ps)
  {
    assert multiset([x] + ps) == multiset{x} + multiset(ps);
    if done' == [x] + done && left' == left {
      assert multiset(done') == multiset{x} + multiset(done);
    } else {
      assert multiset(left') == multiset{x} + multiset(left);
    }
  }

  /** sub can be read off s left to right, skipping entries of s. */
  predicate Subsequence(sub: seq<Course>, s: seq<Course>)
    decreases |s|
  {
    if sub == [] then true
    else if s == [] then false
    else if sub[0] == s[0] then Subsequence(sub[1..], s[1..])
    else Subsequence(sub, s[1..])
  }

  /** The completed prerequisites keep the order of the prerequisite list. */
  lemma {:induction false} DoneInOrder(ps: seq<Course>, completed: seq<Course>)
    ensures Subsequence(PrereqsDone(ps, completed), ps)
    decreases |ps|
  {
    if |ps| > 0 {
      DoneInOrder(ps[1..], completed);
      var done := PrereqsDone(ps[1..], completed);
      if ps[0] in completed {
        assert PrereqsDone(ps, completed) == [ps[0]] + done;
        assert ([ps[0]] + done)[1..] == done;
      } else {
        assert PrereqsDone(ps, completed) == done;
        assert done != [] ==> done[0] in done && done[0] != ps[0];
      }
    }
  }

  /** The remaining prerequisites keep the order of the prerequisite list. */
  lemma {:induction false} LeftInOrder(ps: seq<Course>, completed: seq<Course>)
    ensures Subsequence(PrereqsLeft(ps, completed), ps)
    decreases |ps|
  {
    if |ps| > 0 {
      LeftInOrder(ps[1..], completed);
      var left := PrereqsLeft(ps[1..], completed);
      if ps[0] !in completed {
        assert PrereqsLeft(ps, completed) == [ps[0]] + left;
        assert ([ps[0]] + left)[1..] == left;
      } else {
        assert PrereqsLeft(ps, completed) == left;
        assert left != [] ==> left[0] in left && left[0] != ps[0];
      }
    }
  }

  datatype Status = Status(courseName: Course, prerequisites: seq<Course>, completedPrereqs: seq<Course>,
                           remainingPrereqs: seq<Course>, prerequisitesMet: bool)

  /** get_course_prerequisites_status: an error for a course without
      attributes; otherwise its listed prerequisites split into the
      completed and the remaining ones. */
  function PrerequisiteStatus(cat: Catalog, name: Course, completed: seq<Course>): (r: Result<Status, string>)
    ensures r.Err? <==> name !in Keys(cat.attributes)
    ensures r.Err? ==> r.error == "Course \"" + name + "\" not found"
    ensures r.Ok? ==>
      r.value.courseName == name && r.value.prerequisites == (match Lookup(cat.prerequisites, name) case Some(ps) => ps case None => [])
    ensures r.Ok? ==> multiset(r.value.completedPrereqs) + multiset(r.value.remainingPrereqs) == multiset(r.value.prerequisites)
    ensures r.Ok? ==> (forall p :: p in r.value.completedPrereqs <==> p in r.value.prerequisites && p in completed) &&
                      (forall p :: p in r.value.remainingPrereqs <==> p in r.value.prerequisites && p !in completed)
    ensures r.Ok? ==> (r.value.prerequisitesMet <==> forall p :: p in r.value.prerequisites ==> p in completed)
    ensures r.Ok? ==> Subsequence(r.value.completedPrereqs, r.value.prerequisites) &&
                      Subsequence(r.value.remainingPrereqs, r.value.prerequisites)
  {
    if name !in Keys(cat.attributes) then Err("Course \"" + name + "\" not found")
    else
      var ps := match Lookup(cat.prerequisites, name) case Some(ps) => ps case None => [];
      var left := PrereqsLeft(ps, completed);
      PrereqsPartition(ps, completed);
      DoneInOrder(ps, completed);
      LeftInOrder(ps, completed);
      assert left != [] ==> left[0] in left;
      Ok(Status(name, ps, PrereqsDone(ps, completed), left, |left| == 0))
  }

  /** A course of both tables is available exactly when it is not completed
      and its prerequisites are met. */
  lemma AvailableIffMet(cat: Catalog, c: Course, completed: seq<Course>)
    requires UniqueKeys(cat.prerequisites) && c in Keys(cat.prerequisites) && c in Keys(cat.attributes)
    ensures PrerequisiteStatus(cat, c, completed).Ok?
    ensures c in Available(cat.prerequisites, completed) <==>
            c !in completed && PrerequisiteStatus(cat, c, completed).value.prerequisitesMet
  {
    AvailableMembers(cat.prerequisites, completed, c);
    var k :| 0 <= k < |cat.prerequisites| && cat.prerequisites[k].0 == c;
    LookupAt(cat.prerequisites, k);
    if c in Available(cat.prerequisites, completed) {
      var i :| 0 <= i < |cat.prerequisites| && cat.prerequisites[i].0 == c && CanTake(cat.prerequisites[i], completed);
      LookupAt(cat.prerequisites, i);
    }
  }

  // ---------------------------------------------------------------------
  // The learning-style questionnaire

  datatype Scores = Scores(fastest: int, easiest: int, challenging: int, balanced: int)

  /** user_responses.get(key, default). */
  function Answer(responses: map<string, string>, key: string, default: string): string
  {
    if key in responses then responses[key] else default
  }

  /** The points each answer gives: to time preference, difficulty
      tolerance and learning goal. */
  function TimePoints(answer: string): Scores
  {
    if answer == "minimum" then Scores(2, 0, 0, 1)
    else if answer == "maximum" then Scores(0, 1, 0, 0)
    else Scores(0, 0, 0, 1)
  }

  function DifficultyPoints(answer: string): Scores
  {
    if answer == "high" then Scores(0, 0, 2, 1)
    else if answer == "low" then Scores(0, 2, 0, 1)
    else Scores(0, 0, 0, 2)
  }

  function GoalPoints(answer: string): Scores
  {
    if answer == "career_advancement" then Scores(0, 0, 1, 1)
    else if answer == "career_change" then Scores(0, 1, 0, 1)
    else if answer == "interest_exploration" then Scores(0, 0, 0, 1)
    else Scores(0, 0, 0, 0)
  }

  /** The questionnaire's total points: the three answers' points added up. */
  function Points(responses: map<string, string>): Scores
  {
    var t := TimePoints(Answer(responses, "time_preference", "moderate"));
    var d := DifficultyPoints(Answer(responses, "difficulty_tolerance", "medium"));
    var g := GoalPoints(Answer(responses, "learning_goal", "general"));
    Scores(t.fastest + d.fastest + g.fastest, t.easiest + d.easiest + g.easiest,
           t.challenging + d.challenging + g.challenging, t.balanced + d.balanced + g.balanced)
  }

  function ScoreOf(s: Scores, style: LearningStyle): int
  {
    match style
    case Fastest => s.fastest
    case Easiest => s.easiest
    case Challenging => s.challenging
    case Balanced => s.balanced
  }

  /** The styles in the order the scores dictionary lists them. */
  function Rank(style: LearningStyle): nat
  {
    match style
    case Fastest => 0
    case Easiest => 1
    case Challenging => 2
    case Balanced => 3
  }

  /** style has the highest score, and every style listed before it scores less. */
  predicate FirstBest(s: Scores, style: LearningStyle)
  {
    Beats(s, style, Fastest) && Beats(s, style, Easiest) && Beats(s, style, Challenging) && Beats(s, style, Balanced)
  }

  /** style scores at least as much as other, and more when other is listed first. */
  predicate Beats(s: Scores, style: LearningStyle, other: LearningStyle)
  {
    ScoreOf(s, other) <= ScoreOf(s, style) && (Rank(other) < Rank(style) ==> ScoreOf(s, other) < ScoreOf(s, style))
  }

  /** assess_learning_style: the four counters incremented per answer, and
      max over the scores dictionary. */
  method AssessLearningStyle(responses: map<string, string>) returns (style: LearningStyle)
    ensures FirstBest(Points(responses), style)
  {
    var time := Answer(responses, "time_preference", "moderate");
    var difficulty := Answer(responses, "difficulty_tolerance", "medium");
    var goal := Answer(responses, "learning_goal", "general");
    var fastest, easiest, challenging, balanced := 0, 0, 0, 0;
    if time == "minimum" {
      fastest := fastest + 2;
      balanced := balanced + 1;
    } else if time == "maximum" {
      easiest := easiest + 1;
    } else {
      balanced := balanced + 1;
    }
    ghost var t := TimePoints(time);
    assert Scores(fastest, easiest, challenging, balanced) == t;
    if difficulty == "high" {
      challenging := challenging + 2;
      balanced := balanced + 1;
    } else if difficulty == "low" {
      easiest := easiest + 2;
      balanced := balanced + 1;
    } else {
      balanced := balanced + 2;
    }
    ghost var d := DifficultyPoints(difficulty);
    assert Scores(fastest, easiest, challenging, balanced) ==
           Scores(t.fastest + d.fastest, t.easiest + d.easiest, t.challenging + d.challenging, t.balanced + d.balanced);
    if goal == "career_advancement" {
      challenging := challenging + 1;
      balanced := balanced + 1;
    } else if goal == "career_change" {
      balanced := balanced + 1;
      easiest := easiest + 1;
    } else if goal == "interest_exploration" {
      balanced := balanced + 1;
    }
    assert Scores(fastest, easiest, challenging, balanced) == Points(responses);
    style := MaxStyle(Scores(fastest, easiest, challenging, balanced));
  }

  /** max(scores, key=scores.get): the dictionary is scanned in order and a
      later style replaces the best one only with a strictly higher score. */
  method MaxStyle(s: Scores) returns (style: LearningStyle)
    ensures FirstBest(s, style)
  {
    style := Fastest;
    var best := s.fastest;
    if s.easiest > best {
      style, best := Easiest, s.easiest;
    }
    if s.challenging > best {
      style, best := Challenging, s.challenging;
    }
    if s.balanced > best {
      style, best := Balanced, s.balanced;
    }
  }

  /** The first best style is unique. */
  lemma FirstBestUnique(s: Scores, a: LearningStyle, b: LearningStyle)
    requires FirstBest(s, a) && FirstBest(s, b)
    ensures a == b
  {
    assert Beats(s, a, b) && Beats(s, b, a);
  }

  /** With no answers every style scores as the defaults give: balanced wins. */
  lemma DefaultsGiveBalanced()
    ensures FirstBest(Points(map[]), Balanced)
  {
    var m: map<string, string> := map[];
    assert Answer(m, "time_preference", "moderate") == "moderate";
    assert "moderate"[1] != "minimum"[1] && "moderate"[1] != "maximum"[1];
    assert TimePoints("moderate") == Scores(0, 0, 0, 1);
    assert "medium"[0] != "high"[0] && "medium"[0] != "low"[0];
    assert DifficultyPoints("medium") == Scores(0, 0, 0, 2);
    assert |"general"| != |"career_advancement"| && |"general"| != |"career_change"|;
    assert |"general"| != |"interest_exploration"|;
    assert GoalPoints("general") == Scores(0, 0, 0, 0);
  }

  /** A learner in a hurry who likes hard courses and wants a promotion
      ties challenging with balanced, and challenging is listed first. */
  lemma AmbitiousGivesChallenging(responses: map<string, string>)
    requires Answer(responses, "time_preference", "moderate") == "minimum"
    requires Answer(responses, "difficulty_tolerance", "medium") == "high"
    requires Answer(responses, "learning_goal", "general") == "career_advancement"
    ensures Points(responses) == Scores(2, 0, 3, 3)
    ensures FirstBest(Points(responses), Challenging)
  {
    assert FirstBest(Scores(2, 0, 3, 3), Challenging);
  }

  // ---------------------------------------------------------------------
  // Career planning

  /** The required courses not among the current skills, in order. */
  function Missing(required: seq<Course>, current: seq<Course>): (r: seq<Course>)
    ensures forall c :: c in r <==> c in required && c !in current
    ensures |r| <= |required|
  {
    if |required| == 0 then []
    else (if required[0] !in current then [required[0]] else []) + Missing(required[1..], current)
  }

  /** The courses of the list that have attributes, in order. */
  function Known(cs: seq<Course>, attributes: Table<Attributes>): (r: seq<Course>)
    ensures forall c :: c in r <==> c in cs && c in Keys(attributes)
  {
    if |cs| == 0 then [] else (if cs[0] in Keys(attributes) then [cs[0]] else []) + Known(cs[1..], attributes)
  }

  /** attributes.get(c, {}).get('utility', 0). */
  function UtilityOf(attributes: Table<Attributes>, c: Course): int
  {
    match Lookup(attributes, c) case Some(a) => a.utility case None => 0
  }

  /** max(cs, key=utility): the first course of greatest utility. */
  function MostUseful(cs: seq<Course>, attributes: Table<Attributes>): (r: nat)
    requires |cs| > 0
    ensures r < |cs|
    ensures forall j :: 0 <= j < |cs| ==> UtilityOf(attributes, cs[j]) <= UtilityOf(attributes, cs[r])
    ensures forall j :: 0 <= j < r ==> UtilityOf(attributes, cs[j]) < UtilityOf(attributes, cs[r])
  {
    if |cs| == 1 then 0
    else
      var k := MostUseful(cs[..|cs| - 1], attributes);
      assert forall j :: 0 <= j < |cs| - 1 ==> cs[..|cs| - 1][j] == cs[j];
      if UtilityOf(attributes, cs[|cs| - 1]) > UtilityOf(attributes, cs[k]) then |cs| - 1 else k
  }

  datatype Feasibility = HighFeasibility | MediumFeasibility | ChallengingFeasibility | ExcellentFeasibility

  /** 'high' below 4 missing courses, 'medium' below 8, else 'challenging'. */
  function FeasibilityOf(missing: nat): Feasibility
  {
    if missing < 4 then HighFeasibility else if missing < 8 then MediumFeasibility else ChallengingFeasibility
  }

  /** What plan_career_path returns. */
  datatype CareerPlan =
    | CareerUnknown(error: string, availableCareers: seq<string>)
    | Planned(success: bool, targetCareer: string, requiredCourses: seq<Course>, currentSkills: seq<Course>,
              missingCourses: seq<Course>, recommendedPath: PathResult, estimatedMonths: real, feasibility: Feasibility)
    | Unmapped(targetCareer: string, requiredCourses: seq<Course>, currentSkills: seq<Course>,
               missingCourses: seq<Course>, error: string)
    | Qualified(targetCareer: string, currentSkills: seq<Course>, message: string, feasibility: Feasibility)

  /** min(cost * 0.5, horizon), with an infinite cost giving the horizon. */
  function EstimatedMonths(cost: Option<real>, horizon: int): (m: real)
    ensures m <= horizon as real
    ensures cost.Some? && cost.value * 0.5 <= horizon as real ==> m == cost.value * 0.5
  {
    match cost
    case None => horizon as real
    case Some(c) => if c * 0.5 <= horizon as real then c * 0.5 else horizon as real
  }

  /** What a plan towards the most useful known missing course holds: the
      Dijkstra path from the current skills, its estimated duration and the
      feasibility by the number of missing courses. */
  ghost predicate PlannedTowards(cat: Catalog, target: string, required: seq<Course>, current: seq<Course>,
                                 missing: seq<Course>, known: seq<Course>, horizon: int, r: CareerPlan)
  {
    known != [] && r.Planned? &&
    var goal := known[MostUseful(known, cat.attributes)];
    r.targetCareer == target && r.currentSkills == current &&
    r.requiredCourses == required && r.missingCourses == missing &&
    PathFound(PathAgent(cat, Balanced, None, current, goal, DijkstraSearch, None), r.recommendedPath) &&
    r.recommendedPath.goalCourse == goal && r.success == r.recommendedPath.success &&
    r.estimatedMonths == EstimatedMonths(r.recommendedPath.totalCost, horizon) &&
    r.feasibility == FeasibilityOf(|missing|)
  }

  /** The Planned branch of plan_career_path. */
  method PlanTowards(cat: Catalog, target: string, required: seq<Course>, current: seq<Course>, missing: seq<Course>,
                     known: seq<Course>, horizon: int) returns (r: CareerPlan)
    requires known != [] && forall c :: c in known ==> c in Keys(cat.attributes)
    ensures PlannedTowards(cat, target, required, current, missing, known, horizon, r)
  {
    var goal := known[MostUseful(known, cat.attributes)];
    assert goal in known;
    var found := FindLearningPath(cat, current, goal, Balanced, DijkstraSearch, None);
    var path := found.value;
    r := Planned(path.success, target, required, current, missing, path,
                 EstimatedMonths(path.totalCost, horizon), FeasibilityOf(|missing|));
  }

  const UnmappedMessage := "Some required skills do not have course mappings yet, so a detailed path cannot be generated."
  const QualifiedMessage := "You already have all required skills for this career path!"

  /** plan_career_path: the missing required courses, and a path to the most
      useful of those the catalog knows. */
  method PlanCareerPath(cat: Catalog, careers: Table<seq<Course>>, current: seq<Course>, target: string, horizon: int)
    returns (r: CareerPlan)
    ensures target !in Keys(careers) <==> r.CareerUnknown?
    ensures r.CareerUnknown? ==>
      r.error == "Career path for \"" + target + "\" not available" && r.availableCareers == Firsts(careers)
    ensures target in Keys(careers) ==>
      var required := Lookup(careers, target).value;
      var missing := Missing(required, current);
      var known := Known(missing, cat.attributes);
      (known != [] <==> r.Planned?) && (known == [] && missing != [] <==> r.Unmapped?) &&
      (missing == [] <==> r.Qualified?) &&
      (r.Planned? ==> PlannedTowards(cat, target, required, current, missing, known, horizon, r)) &&
      (r.Unmapped? ==> r.targetCareer == target && r.requiredCourses == required && r.currentSkills == current &&
                       r.missingCourses == missing && r.error == UnmappedMessage) &&
      (r.Qualified? ==> r.targetCareer == target && r.currentSkills == current &&
                        r.message == QualifiedMessage && r.feasibility == ExcellentFeasibility)
  {
    if target !in Keys(careers) {
      return CareerUnknown("Career path for \"" + target + "\" not available", Firsts(careers));
    }
    var required := Lookup(careers, target).value;
    var missing := Missing(required, current);
    var known := Known(missing, cat.attributes);
    if known != [] {
      r := PlanTowards(cat, target, required, current, missing, known, horizon);
    } else if missing != [] {
      r := Unmapped(target, required, current, missing,
                    UnmappedMessage);
    } else {
      r := Qualified(target, current, QualifiedMessage, ExcellentFeasibility);
    }
  }

  // ---------------------------------------------------------------------
  // Skill gap

  datatype Severity = LowGap | MediumGap | HighGap

  /** 'low' for at most 2 missing skills, 'medium' for at most 5, else 'high'. */
  function SeverityOf(missing: nat): Severity
  {
    if missing <= 2 then LowGap else if missing <= 5 then MediumGap else HighGap
  }

  /** A missing skill's entry: a path and the attributes and open
      prerequisites for a catalog course, None and [] otherwise. */
  datatype SkillPath = SkillPath(path: Option<PathResult>, attributes: Option<Attributes>, prerequisitesNeeded: seq<Course>)

  datatype SkillGap = SkillGap(currentSkills: seq<Course>, targetSkills: seq<Course>,
                               missingSkills: set<Course>, extraSkills: set<Course>, matchedSkills: set<Course>,
                               missingSkillsWithPaths: map<Course, SkillPath>, gapSeverity: Severity)

  /** The prerequisites of the skill that are not current skills. */
  function Needed(cat: Catalog, skill: Course, current: seq<Course>): seq<Course>
  {
    PrereqsLeft(match Lookup(cat.prerequisites, skill) case Some(ps) => ps case None => [], current)
  }

  /** The entry of a missing skill is the one the analysis promises. */
  ghost predicate EntryFor(cat: Catalog, current: seq<Course>, skill: Course, e: SkillPath)
  {
    if skill in Keys(cat.attributes) then
      e.path.Some? && PathFound(PathAgent(cat, Balanced, None, current, skill, DijkstraSearch, None), e.path.value) &&
      e.path.value.goalCourse == skill &&
      e.attributes == Lookup(cat.attributes, skill) && e.prerequisitesNeeded == Needed(cat, skill, current)
    else e == SkillPath(None, None, [])
  }

  /** The three sets split the two lists: missing and matched make up the
      target skills, extra and matched the current ones, each pair disjoint. */
  lemma GapPartition(current: seq<Course>, target: seq<Course>)
    ensures var cs, ts := set c | c in current, set t | t in target;
      (ts - cs) + (cs * ts) == ts && (ts - cs) * (cs * ts) == {} &&
      (cs - ts) + (cs * ts) == cs && (cs - ts) * (cs * ts) == {}
  {
  }

  /** get_skill_gap_analysis: the set differences, and an entry per missing
      skill, in no particular order. */
  method SkillGapAnalysis(cat: Catalog, current: seq<Course>, target: seq<Course>) returns (r: SkillGap)
    ensures var cs, ts := set c | c in current, set t | t in target;
      r.missingSkills == ts - cs && r.extraSkills == cs - ts && r.matchedSkills == cs * ts
    ensures r.currentSkills == current && r.targetSkills == target
    ensures r.missingSkillsWithPaths.Keys == r.missingSkills
    ensures EntriesFor(cat, current, r.missingSkillsWithPaths)
    ensures r.gapSeverity == SeverityOf(|r.missingSkills|)
  {
    var cs := set c | c in current;
    var ts := set t | t in target;
    var missing := ts - cs;
    var entries: map<Course, SkillPath> := map[];
    var todo := missing;
    while todo != {}
      invariant todo <= missing
      invariant entries.Keys == missing - todo
      invariant EntriesFor(cat, current, entries)
      decreases |todo|
    {
      var skill :| skill in todo;
      var entry := SkillEntry(cat, current, skill);
      EntriesExtend(cat, current, entries, skill, entry, entries[skill := entry]);
      entries := entries[skill := entry];
      todo := todo - {skill};
    }
    r := SkillGap(current, target, missing, cs - ts, cs * ts, entries, SeverityOf(|missing|));
  }

  /** Every entry of the map is the one promised for its skill. */
  ghost predicate EntriesFor(cat: Catalog, current: seq<Course>, entries: map<Course, SkillPath>)
  {
    forall s :: s in entries ==> EntryFor(cat, current, s, entries[s])
  }

  /** Adding a promised entry keeps every entry of the map as promised. */
  lemma EntriesExtend(cat: Catalog, current: seq<Course>, entries: map<Course, SkillPath>, skill: Course, e: SkillPath,
                      extended: map<Course, SkillPath>)
    requires EntriesFor(cat, current, entries)
    requires EntryFor(cat, current, skill, e) && extended == entries[skill := e]
    ensures EntriesFor(cat, current, extended)
  {
  }

  /** The entry for one missing skill. */
  method SkillEntry(cat: Catalog, current: seq<Course>, skill: Course) returns (e: SkillPath)
    ensures EntryFor(cat, current, skill, e)
  {
    if skill in Keys(cat.attributes) {
      var found := FindLearningPath(cat, current, skill, Balanced, DijkstraSearch, None);
      e := SkillPath(Some(found.value), Lookup(cat.attributes, skill), Needed(cat, skill, current));
    } else {
      e := SkillPath(None, None, []);
    }
  }

  // ---------------------------------------------------------------------
  // Evaluating the next course

  /** The chance of passing a course: 0.9 up to difficulty 7 and 0.6 above,
      moved by (riskTolerance - 0.5) * 0.4 and kept within [0.1, 0.95]. */
  function SuccessChance(difficulty: int, riskTolerance: real): (p: real)
    ensures 0.1 <= p <= 0.95
  {
    var base := if difficulty <= 7 then 0.9 else 0.6;
    var adjusted := base + (riskTolerance - 0.5) * 0.4;
    if adjusted < 0.1 then 0.1 else if adjusted > 0.95 then 0.95 else adjusted
  }

  /** The chance is the clamped adjusted base: it never falls as the risk
      tolerance grows, a course above difficulty 7 never has a better chance
      than an easier one, and a neutral tolerance leaves the base unchanged. */
  lemma SuccessChanceFacts(difficulty: int, hard: int, r: real, r2: real)
    requires r <= r2 && difficulty <= 7 < hard
    ensures SuccessChance(difficulty, r) <= SuccessChance(difficulty, r2)
    ensures SuccessChance(hard, r) <= SuccessChance(difficulty, r)
    ensures SuccessChance(difficulty, 0.5) == 0.9 && SuccessChance(hard, 0.5) == 0.6
    ensures 0.05 <= 1.0 - SuccessChance(difficulty, r) <= 0.9
  {
  }

  /** The two outcomes of taking a course: success with the good utility,
      failure with the bad one. */
  function CourseOutcomes(a: Attributes, riskTolerance: real): (os: seq<UA.Outcome>)
    ensures |os| == 2 && os[0].probability + os[1].probability == 1.0
    ensures 0.1 <= os[0].probability <= 0.95 && 0.05 <= os[1].probability <= 0.9
  {
    var timeUtility := 100.0 / (a.timeHours as real + 1.0);
    var difficultyUtility := 10.0 - a.difficulty as real;
    var baseUtility := a.utility as real;
    var p := SuccessChance(a.difficulty, riskTolerance);
    [UA.Outcome(p, baseUtility * 0.4 + timeUtility * 0.3 + difficultyUtility * 0.3),
     UA.Outcome(1.0 - p, baseUtility * 0.1 + timeUtility * 0.1 + difficultyUtility * 0.1)]
  }

  /** The action of each course, in the order of the list. */
  function CourseActions(attributes: Table<Attributes>, courses: seq<Course>, riskTolerance: real): (acts: seq<UA.Action>)
    requires forall c :: c in courses ==> c in Keys(attributes)
    ensures |acts| == |courses| && UA.Valid(acts)
    ensures forall i :: 0 <= i < |courses| ==> acts[i].name == courses[i]
  {
    seq(|courses|, i requires 0 <= i < |courses| =>
      UA.Action(courses[i], CourseOutcomes(Lookup(attributes, courses[i]).value, riskTolerance)))
  }

  /** The expected utility of a course's action: the two utilities weighted
      by the success chance. */
  lemma CourseExpectedUtility(a: Attributes, riskTolerance: real)
    ensures var os := CourseOutcomes(a, riskTolerance);
      UA.ExpectedUtility(os, None) == os[0].probability * os[0].utility + (1.0 - os[0].probability) * os[1].utility
  {
    var os := CourseOutcomes(a, riskTolerance);
    assert os[..1][..0] == [];
    assert UA.ExpectedUtility(os[..1], None) == os[0].probability * os[0].utility;
  }

  /** The decision d is the one the strategy's arg-max gives over the actions. */
  ghost predicate Chosen(strategy: UA.Strategy, actions: seq<UA.Action>, sqrt: real -> real, d: UA.Decision)
    requires UA.Valid(actions)
  {
    d.utility.Some? &&
    match strategy
    case MaximumExpectedUtility => UA.ChoiceOf(actions, UA.MeuValues(actions, None), d.action, d.utility.value)
    case Minimax => UA.ChoiceOf(actions, UA.WorstValues(actions), d.action, d.utility.value)
    case ExpectedValueWithKnowledge => UA.ChoiceOf(actions, UA.EvkValues(actions, sqrt), d.action, d.utility.value)
    case OtherStrategy(_) => false
  }

  const NothingAvailableMessage := "No courses currently available. Complete more prerequisites."

  /** What evaluate_learning_options returns. */
  datatype Evaluation =
    | NothingAvailable(message: string)
    | Evaluated(recommendedCourse: Course, recommendedUtility: real, strategy: UA.Strategy,
                allOptions: seq<(Course, real)>, availableCourses: seq<Course>,
                riskAnalysis: seq<(string, UA.RiskProfile)>, additionalInfo: UA.Info)

  /** evaluate_learning_options: one two-outcome action per available
      course, decided by the utility agent under the chosen strategy. An
      available course without attributes raises KeyError. */
  method EvaluateLearningOptions(cat: Catalog, completed: seq<Course>, strategy: UA.Strategy, riskTolerance: real,
                                 sqrt: real -> real)
    returns (r: Result<Evaluation, AdvisorError>)
    requires UniqueKeys(cat.prerequisites) && !strategy.OtherStrategy?
    ensures var avail := Available(cat.prerequisites, completed);
      (r.Err? <==> exists c :: c in avail && c !in Keys(cat.attributes)) &&
      (r.Err? ==> r.error.MissingKey? && FirstMissing(avail, Keys(cat.attributes), r.error.key)) &&
      (r.Ok? && r.value.NothingAvailable? <==> avail == [])
    ensures r.Ok? && r.value.Evaluated? ==>
      var avail := Available(cat.prerequisites, completed);
      EvaluatedFrom(r.value, avail, CourseActions(cat.attributes, avail, riskTolerance), strategy, sqrt)
  {
    var avail := GetAvailableCourses(cat.prerequisites, completed);
    if avail == [] {
      return Ok(NothingAvailable(NothingAvailableMessage));
    }
    var built := BuildCourseActions(cat.attributes, avail, riskTolerance);
    if built.Err? {
      return Err(MissingKey(built.error));
    }
    var e := Evaluate(avail, built.value, strategy, sqrt);
    r := Ok(e);
  }

  /** An evaluation of the courses avail through their actions: the
      strategy's choice, every course's expected utility and its risk
      profile, in the courses' order. */
  ghost predicate EvaluatedFrom(e: Evaluation, avail: seq<Course>, actions: seq<UA.Action>, strategy: UA.Strategy,
                                sqrt: real -> real)
    requires |actions| == |avail| && UA.Valid(actions)
  {
    e.Evaluated? && e.availableCourses == avail && e.strategy == strategy &&
    Chosen(strategy, actions, sqrt, UA.Decision(e.recommendedCourse, Some(e.recommendedUtility), e.additionalInfo)) &&
    |e.allOptions| == |avail| &&
    (forall i :: 0 <= i < |avail| ==> e.allOptions[i] == (avail[i], UA.ExpectedUtility(actions[i].outcomes, None))) &&
    |e.riskAnalysis| == |avail| &&
    (forall i :: 0 <= i < |avail| ==> e.riskAnalysis[i] == (avail[i], UA.ProfileOf(actions[i].outcomes, sqrt)))
  }

  /** The part of evaluate_learning_options after the actions are made:
      the agent's decision, the options with their utilities and the risk
      analysis. */
  method Evaluate(avail: seq<Course>, actions: seq<UA.Action>, strategy: UA.Strategy, sqrt: real -> real)
    returns (e: Evaluation)
    requires avail != [] && |actions| == |avail| && UA.Valid(actions) && !strategy.OtherStrategy?
    requires forall i :: 0 <= i < |avail| ==> actions[i].name == avail[i]
    ensures EvaluatedFrom(e, avail, actions, strategy, sqrt)
  {
    var agent := UA.Agent(actions, strategy, None);
    var decision := UA.Decide(agent, sqrt);
    var d := decision.value;
    var risk := UA.AnalyzeRiskProfile(actions, sqrt);
    var values := UA.ExpectedUtilities(actions, None);
    var options := seq(|avail|, i requires 0 <= i < |avail| => (avail[i], values[i]));
    e := Evaluated(d.action, d.utility.value, strategy, options, avail, risk, d.info);
  }

  /** c is the first of the courses that is not among the keys: the one a
      loop reading each course's entry in order raises KeyError for. */
  predicate FirstMissing(courses: seq<Course>, keys: set<Course>, c: Course)
  {
    exists i :: 0 <= i < |courses| && courses[i] == c && c !in keys &&
      forall j :: 0 <= j < i ==> courses[j] in keys
  }

  /** A course missing from the keys, after a prefix that is all present,
      is the first missing one. */
  lemma FirstMissingAt(courses: seq<Course>, keys: set<Course>, i: nat)
    requires i < |courses| && courses[i] !in keys
    requires forall c :: c in courses[..i] ==> c in keys
    ensures FirstMissing(courses, keys, courses[i])
  {
    assert forall j :: 0 <= j < i ==> courses[j] in courses[..i];
  }

  /** The loop of evaluate_learning_options that makes an action per
      available course; the first course without attributes stops it with
      KeyError. */
  method BuildCourseActions(attributes: Table<Attributes>, courses: seq<Course>, riskTolerance: real)
    returns (r: Result<seq<UA.Action>, Course>)
    ensures r.Err? <==> exists c :: c in courses && c !in Keys(attributes)
    ensures r.Err? ==> FirstMissing(courses, Keys(attributes), r.error)
    ensures r.Ok? ==> (forall c :: c in courses ==> c in Keys(attributes)) &&
                      r.value == CourseActions(attributes, courses, riskTolerance)
  {
    var actions: seq<UA.Action> := [];
    for i := 0 to |courses|
      invariant forall c :: c in courses[..i] ==> c in Keys(attributes)
      invariant actions == CourseActions(attributes, courses[..i], riskTolerance)
    {
      var attr := Lookup(attributes, courses[i]);
      if attr.None? {
        FirstMissingAt(courses, Keys(attributes), i);
        return Err(courses[i]);
      }
      assert courses[..i + 1] == courses[..i] + [courses[i]];
      actions := actions + [UA.Action(courses[i], CourseOutcomes(attr.value, riskTolerance))];
    }
    assert courses[..|courses|] == courses;
    r := Ok(actions);
  }

  // ---------------------------------------------------------------------
  // A path into a category

  /** How suitable a course with prerequisites ps is for a learner who
      completed the given courses: 0 when every prerequisite is completed
      (or there are none), the completed share when only some are, and
      None when none are. A course open right away thus scores below one
      that is only partly open. */
  function Suitability(ps: seq<Course>, completed: seq<Course>): (r: Option<real>)
    ensures r == Some(0.0) <==> forall p :: p in ps ==> p in completed
    ensures r.None? <==> ps != [] && forall p :: p in ps ==> p !in completed
    ensures r.Some? && r.value != 0.0 ==>
      0.0 < r.value < 1.0 && |set p | p in ps| > 0 &&
      r.value == |(set p | p in ps) * (set c | c in completed)| as real / |set p | p in ps| as real
  {
    var prs := set p | p in ps;
    var done := set c | c in completed;
    var met := |prs * done|;
    var needed := |prs|;
    MetCounts(ps, completed);
    if needed == 0 || met == needed then Some(0.0)
    else if met > 0 then
      ProperShare(met, needed);
      Some(met as real / needed as real)
    else None
  }

  /** How the count of completed prerequisites relates to the two lists. */
  lemma {:induction false} MetCounts(ps: seq<Course>, completed: seq<Course>)
    ensures var prs, done := set p | p in ps, set c | c in completed;
      |prs * done| <= |prs| &&
      (|prs * done| == |prs| <==> forall p :: p in ps ==> p in completed) &&
      (|prs * done| == 0 <==> forall p :: p in ps ==> p !in completed) &&
      (|prs| == 0 <==> ps == [])
  {
    var prs := set p | p in ps;
    var done := set c | c in completed;
    var met := |prs * done|;
    var needed := |prs|;
    SubsetCard(prs * done, prs);
    assert met == needed <==> prs <= done by {
      if met == needed && !(prs <= done) {
        var x :| x in prs && x !in done;
        SubsetCard(prs * done, prs - {x});
      }
      if prs <= done {
        assert prs * done == prs;
      }
    }
    assert met > 0 <==> prs * done != {} by {
      if prs * done != {} {
        var x :| x in prs * done;
        assert |prs * done| > 0;
      }
    }
    assert ps != [] ==> ps[0] in prs;
    assert (prs <= done) <==> forall p :: p in ps ==> p in completed by {
      if prs <= done {
        forall p | p in ps ensures p in completed {
          assert p in prs;
        }
      }
    }
    assert (prs * done == {}) <==> forall p :: p in ps ==> p !in completed by {
      if prs * done == {} {
        forall p | p in ps ensures p !in completed {
          assert p in prs && p !in prs * done;
        }
      }
    }
  }

  /** A share of some but not all lies strictly between 0 and 1. */
  lemma {:induction false} ProperShare(met: nat, needed: nat)
    requires 0 < met < needed
    ensures 0.0 < met as real / needed as real < 1.0
  {
    assert met as real < needed as real;
  }

  /** The courses of the list that score, each with its score, in order. */
  function Suitable(prerequisites: Table<seq<Course>>, targets: seq<Course>, completed: seq<Course>): (r: seq<(Course, real)>)
    requires forall c :: c in targets ==> c in Keys(prerequisites)
    ensures forall x :: x in r ==> x.0 in targets && Suitability(Lookup(prerequisites, x.0).value, completed) == Some(x.1)
  {
    if targets == [] then []
    else
      var c := targets[|targets| - 1];
      Suitable(prerequisites, targets[..|targets| - 1], completed) +
      match Suitability(Lookup(prerequisites, c).value, completed)
      case Some(v) => [(c, v)]
      case None => []
  }

  /** Every course of the list that scores appears in the suitable list. */
  lemma {:induction false} SuitableHasAll(prerequisites: Table<seq<Course>>, targets: seq<Course>, completed: seq<Course>, c: Course)
    requires forall t :: t in targets ==> t in Keys(prerequisites)
    requires c in targets && Suitability(Lookup(prerequisites, c).value, completed).Some?
    ensures (c, Suitability(Lookup(prerequisites, c).value, completed).value) in Suitable(prerequisites, targets, completed)
    decreases |targets|
  {
    var last := targets[|targets| - 1];
    if c != last {
      assert c in targets[..|targets| - 1] by {
        var i :| 0 <= i < |targets| && targets[i] == c;
        assert i < |targets| - 1;
        assert targets[..|targets| - 1][i] == c;
      }
      SuitableHasAll(prerequisites, targets[..|targets| - 1], completed, c);
    }
  }

  predicate RankedDown(s: seq<(Course, real)>)
  {
    forall i, j :: 0 <= i < j < |s| ==> s[j].1 <= s[i].1
  }

  /** x placed after every entry that scores at least as much. */
  function InsertRanked(x: (Course, real), s: seq<(Course, real)>): (r: seq<(Course, real)>)
    requires RankedDown(s)
    ensures RankedDown(r) && multiset(r) == multiset(s) + multiset{x}
  {
    if s == [] then [x]
    else if x.1 > s[0].1 then [x] + s
    else
      var rest := InsertRanked(x, s[1..]);
      InsertBehind(x, s, rest);
      [s[0]] + rest
  }

  /** x inserted behind the first entry when it does not score more. */
  lemma {:induction false} InsertBehind(x: (Course, real), s: seq<(Course, real)>, rest: seq<(Course, real)>)
    requires s != [] && x.1 <= s[0].1 && RankedDown(s)
    requires RankedDown(rest) && multiset(rest) == multiset(s[1..]) + multiset{x}
    ensures RankedDown([s[0]] + rest) && multiset([s[0]] + rest) == multiset(s) + multiset{x}
  {
    assert s == [s[0]] + s[1..];
    assert multiset([s[0]] + rest) == multiset{s[0]} + multiset(rest);
    forall y | y in rest ensures y.1 <= s[0].1 {
      assert y in multiset(rest);
      if y != x {
        assert y in multiset(s[1..]);
        var j :| 0 <= j < |s[1..]| && s[1..][j] == y;
        assert s[j + 1] == y;
      }
    }
    var r := [s[0]] + rest;
    forall i, j | 0 <= i < j < |r| ensures r[j].1 <= r[i].1 {
      assert r[j] == rest[j - 1] && rest[j - 1] in rest;
      if i > 0 {
        assert r[i] == rest[i - 1];
      }
    }
  }

  /** suitable_courses.sort(key=score, reverse=True): a stable sort from the
      highest score down. */
  function Ranked(s: seq<(Course, real)>): (r: seq<(Course, real)>)
    ensures RankedDown(r) && multiset(r) == multiset(s)
  {
    if s == [] then []
    else
      assert s == s[..|s| - 1] + [s[|s| - 1]];
      InsertRanked(s[|s| - 1], Ranked(s[..|s| - 1]))
  }

  /** The first ranked course has the highest score; in particular a course
      that is only partly open is always ranked before any course that is
      open right away, which scores 0. */
  lemma RankedHead(s: seq<(Course, real)>, x: (Course, real))
    requires x in s
    ensures Ranked(s) != [] && x.1 <= Ranked(s)[0].1
    ensures x.1 > 0.0 ==> Ranked(s)[0].1 > 0.0
  {
    var r := Ranked(s);
    assert x in multiset(r);
    var i :| 0 <= i < |r| && r[i] == x;
  }

  function NoCoursesMessage(category: string): string
  {
    "No courses found in category: " + category
  }

  function NotAccessibleMessage(category: string): string
  {
    "No courses in category \"" + category + "\" are accessible with your current knowledge"
  }

  function UnlockHint(category: string): string
  {
    "Complete more foundational courses to unlock " + category + " courses"
  }

  /** What get_learning_path_by_category returns. */
  datatype CategoryPath =
    | NoCourses(message: string, availableCategories: seq<string>)
    | NotAccessible(message: string, suggestions: string)
    | Recommended(targetCategory: string, recommendedCourse: Course, found: PathResult,
                  alternativeSuitableCourses: seq<Course>, categoryCoursesCount: nat)

  /** get_learning_path_by_category as written: its loop reads the name
      completed_courses, which the method does not define (its parameter is
      start_courses), so any category with a course raises NameError. */
  function LearningPathByCategoryAsWritten(cat: Catalog, starts: seq<Course>, category: string): (r: Result<CategoryPath, AdvisorError>)
    ensures r.Err? <==> CoursesByCategory(cat.attributes, category) != []
    ensures r.Err? ==> var first := CoursesByCategory(cat.attributes, category)[0];
      if first in Keys(cat.prerequisites) then r.error == UndefinedName("completed_courses")
      else r.error == MissingKey(first)
    ensures r.Ok? ==> r.value.NoCourses? && r.value.availableCategories == AllCategories(cat.attributes)
  {
    var targets := CoursesByCategory(cat.attributes, category);
    if targets == [] then
      Ok(NoCourses(NoCoursesMessage(category), AllCategories(cat.attributes)))
    else if targets[0] !in Keys(cat.prerequisites) then
      // the lookup of the first course's prerequisites comes first
      Err(MissingKey(targets[0]))
    else
      Err(UndefinedName("completed_courses"))
  }

  /** A one-course catalog in category "Data", whose course has a
      prerequisites entry, is enough to raise the NameError. */
  lemma CategoryPathAsWrittenFails()
    ensures LearningPathByCategoryAsWritten(Catalog([("Python", [])], [("Python", Attributes(1, 10, 5, None, Some("Data")))]),
                                            [], "Data") == Err(UndefinedName("completed_courses"))
  {
    var attrs: Table<Attributes> := [("Python", Attributes(1, 10, 5, None, Some("Data")))];
    assert InCategory(attrs[0].1, "Data");
    assert "Python" in CoursesByCategory(attrs, "Data");
    var prereqs: Table<seq<Course>> := [("Python", [])];
    assert prereqs[0].0 == "Python";
    assert "Python" in Keys(prereqs);
  }

  /** The loop over the category's courses: each course scored from its
      prerequisites entry, KeyError for the first course without one. */
  method ScoreCourses(prerequisites: Table<seq<Course>>, targets: seq<Course>, completed: seq<Course>)
    returns (r: Result<seq<(Course, real)>, AdvisorError>)
    ensures r.Err? <==> exists c :: c in targets && c !in Keys(prerequisites)
    ensures r.Err? ==> r.error.MissingKey? && FirstMissing(targets, Keys(prerequisites), r.error.key)
    ensures r.Ok? ==> (forall c :: c in targets ==> c in Keys(prerequisites)) &&
                      r.value == Suitable(prerequisites, targets, completed)
  {
    var suitable: seq<(Course, real)> := [];
    for i := 0 to |targets|
      invariant forall c :: c in targets[..i] ==> c in Keys(prerequisites)
      invariant suitable == Suitable(prerequisites, targets[..i], completed)
    {
      var ps := Lookup(prerequisites, targets[i]);
      if ps.None? {
        FirstMissingAt(targets, Keys(prerequisites), i);
        return Err(MissingKey(targets[i]));
      }
      assert targets[..i + 1] == targets[..i] + [targets[i]];
      var score := Suitability(ps.value, completed);
      if score.Some? {
        suitable := suitable + [(targets[i], score.value)];
      }
    }
    assert targets[..|targets|] == targets;
    return Ok(suitable);
  }

  /** get_learning_path_by_category with the completed set read from
      start_courses: the category's courses scored, ranked from the highest
      score down, and a path to the first. A category course without a
      prerequisites entry raises KeyError. */
  method LearningPathByCategory(cat: Catalog, starts: seq<Course>, category: string)
    returns (r: Result<CategoryPath, AdvisorError>)
    ensures var targets := CoursesByCategory(cat.attributes, category);
      (r.Err? <==> exists c :: c in targets && c !in Keys(cat.prerequisites)) &&
      (r.Err? ==> r.error.MissingKey? && FirstMissing(targets, Keys(cat.prerequisites), r.error.key)) &&
      (r.Ok? && r.value.NoCourses? <==> targets == []) &&
      (r.Ok? && r.value.NoCourses? ==> r.value.availableCategories == AllCategories(cat.attributes))
    ensures r.Ok? && !r.value.NoCourses? ==>
      var targets := CoursesByCategory(cat.attributes, category);
      (forall c :: c in targets ==> c in Keys(cat.prerequisites)) &&
      var ranked := Ranked(Suitable(cat.prerequisites, targets, starts));
      (r.value.NotAccessible? <==> ranked == []) &&
      (r.value.Recommended? ==> RecommendedFrom(cat, starts, category, targets, ranked, r.value))
  {
    var targets := CoursesByCategory(cat.attributes, category);
    if targets == [] {
      return Ok(NoCourses(NoCoursesMessage(category), AllCategories(cat.attributes)));
    }
    var scored := ScoreCourses(cat.prerequisites, targets, starts);
    if scored.Err? {
      return Err(scored.error);
    }
    var suitable := scored.value;
    var ranked := Ranked(suitable);
    if ranked == [] {
      return Ok(NotAccessible(NotAccessibleMessage(category), UnlockHint(category)));
    }
    assert ranked[0].0 in targets by {
      assert ranked[0] in multiset(suitable);
    }
    var rec := Recommend(cat, starts, category, targets, ranked);
    r := Ok(rec);
  }

  /** What a recommendation for a category holds: a Dijkstra path from the
      start courses to the best ranked course, and up to five ranked courses
      as alternatives. */
  ghost predicate RecommendedFrom(cat: Catalog, starts: seq<Course>, category: string, targets: seq<Course>,
                                  ranked: seq<(Course, real)>, v: CategoryPath)
  {
    ranked != [] && v.Recommended? &&
    v.recommendedCourse == ranked[0].0 && v.targetCategory == category &&
    v.found.goalCourse == ranked[0].0 &&
    PathFound(PathAgent(cat, Balanced, None, starts, ranked[0].0, DijkstraSearch, None), v.found) &&
    v.alternativeSuitableCourses == Firsts(ranked[..if |ranked| < 5 then |ranked| else 5]) &&
    v.categoryCoursesCount == |targets|
  }

  /** The recommending branch of get_learning_path_by_category. */
  method Recommend(cat: Catalog, starts: seq<Course>, category: string, targets: seq<Course>,
                   ranked: seq<(Course, real)>) returns (v: CategoryPath)
    requires ranked != [] && ranked[0].0 in Keys(cat.prerequisites)
    ensures RecommendedFrom(cat, starts, category, targets, ranked, v)
  {
    var best := ranked[0].0;
    var found := FindLearningPath(cat, starts, best, Balanced, DijkstraSearch, None);
    var top := if |ranked| < 5 then |ranked| else 5;
    var path := found.value;
    v := Recommended(category, best, path, Firsts(ranked[..top]), |targets|);
  }
}

/** The utility-based agent: actions with lists of (probability, utility)
    outcomes, validated on construction, and a decision by maximum expected
    utility, by minimax over worst outcomes, or by expected utility less the
    standard deviation. Like Python's max over a dict, every arg-max picks
    the first action, in insertion order, among those of maximal value. */
module UtilityAgent {
  import opened Wrappers

  /** An outcome dictionary as received: either key may be missing. */
  datatype RawOutcome = RawOutcome(probability: Option<real>, utility: Option<real>)

  datatype RawAction = RawAction(name: string, outcomes: seq<RawOutcome>)

  datatype Outcome = Outcome(probability: real, utility: real)

  /** One entry of the actions dictionary, in insertion order. */
  datatype Action = Action(name: string, outcomes: seq<Outcome>)

  datatype Strategy = MaximumExpectedUtility | Minimax | ExpectedValueWithKnowledge | OtherStrategy(name: string)

  datatype UtilityError =
    | NoOutcomes(action: string)
    | InvalidStructure(action: string)
    | InvalidProbability(action: string, probability: real)
    | EmptyChoice
    | UnknownStrategy(name: string)

  datatype Agent = Agent(actions: seq<Action>, strategy: Strategy, transform: Option<real -> real>)

  // ---------------------------------------------------------------------
  // Validation

  function OutcomeError(name: string, o: RawOutcome): Option<UtilityError>
  {
    if o.probability.None? || o.utility.None? then Some(InvalidStructure(name))
    else if !(0.0 <= o.probability.value <= 1.0) then Some(InvalidProbability(name, o.probability.value))
    else None
  }

  predicate OutcomeOk(o: RawOutcome)
  {
    o.probability.Some? && o.utility.Some? && 0.0 <= o.probability.value <= 1.0
  }

  /** The error raised for an action: no outcomes, or the first bad outcome. */
  function ActionError(a: RawAction): (r: Option<UtilityError>)
  {
    if |a.outcomes| == 0 then Some(NoOutcomes(a.name)) else FirstOutcomeError(a.name, a.outcomes)
  }

  function FirstOutcomeError(name: string, os: seq<RawOutcome>): (r: Option<UtilityError>)
    ensures r.None? <==> forall i :: 0 <= i < |os| ==> OutcomeOk(os[i])
  {
    if |os| == 0 then None
    else if OutcomeError(name, os[0]).Some? then OutcomeError(name, os[0])
    else
      assert forall i :: 1 <= i < |os| ==> os[i] == os[1..][i - 1];
      FirstOutcomeError(name, os[1..])
  }

  /** The first error validate_actions raises, actions in order. */
  function FirstError(raw: seq<RawAction>): Option<UtilityError>
  {
    if |raw| == 0 then None
    else if ActionError(raw[0]).Some? then ActionError(raw[0])
    else FirstError(raw[1..])
  }

  predicate ActionOk(a: RawAction)
  {
    |a.outcomes| > 0 && forall i :: 0 <= i < |a.outcomes| ==> OutcomeOk(a.outcomes[i])
  }

  /** Validation fails exactly when some action has no outcomes, or an
      outcome lacks a key or has a probability outside [0, 1]. */
  lemma {:induction false} FirstErrorNone(raw: seq<RawAction>)
    ensures FirstError(raw).None? <==> forall i :: 0 <= i < |raw| ==> ActionOk(raw[i])
    decreases |raw|
  {
    if |raw| > 0 {
      FirstErrorNone(raw[1..]);
      assert forall i :: 1 <= i < |raw| ==> raw[i] == raw[1..][i - 1];
    }
  }

  /** The error is the one of the first failing action. */
  lemma {:induction false} FirstErrorAt(raw: seq<RawAction>, k: nat)
    requires k < |raw| && ActionError(raw[k]).Some?
    requires forall i :: 0 <= i < k ==> ActionError(raw[i]).None?
    ensures FirstError(raw) == ActionError(raw[k])
    decreases k
  {
    if k > 0 {
      FirstErrorAt(raw[1..], k - 1);
    }
  }

  /** The outcome with its keys read, for a checked outcome. */
  function Checked(o: RawOutcome): Outcome
    requires OutcomeOk(o)
  {
    Outcome(o.probability.value, o.utility.value)
  }

  /** What a validated agent may assume of its actions. */
  predicate Valid(actions: seq<Action>)
  {
    forall i :: 0 <= i < |actions| ==> ValidAction(actions[i])
  }

  predicate ValidAction(a: Action)
  {
    |a.outcomes| > 0 && forall k :: 0 <= k < |a.outcomes| ==> 0.0 <= a.outcomes[k].probability <= 1.0
  }

  /** a is the checked form of the raw action ra: same name, and each
      outcome with both keys present and read. */
  predicate ChecksTo(ra: RawAction, a: Action)
  {
    a.name == ra.name && |a.outcomes| == |ra.outcomes| &&
    forall k :: 0 <= k < |ra.outcomes| ==> OutcomeOk(ra.outcomes[k]) && a.outcomes[k] == Checked(ra.outcomes[k])
  }

  /** validate_actions: checks each action, its outcomes in order, and
      raises the first error; a probability total away from 1 is only a
      warning and is not modelled. */
  method ValidateActions(raw: seq<RawAction>) returns (r: Result<seq<Action>, UtilityError>)
    ensures r.Err? ==> FirstError(raw) == Some(r.error)
    ensures r.Ok? ==> FirstError(raw).None? && Valid(r.value) && |r.value| == |raw|
    ensures r.Ok? ==> forall i :: 0 <= i < |raw| ==> ChecksTo(raw[i], r.value[i])
  {
    var actions: seq<Action> := [];
    var i := 0;
    while i < |raw|
      invariant 0 <= i <= |raw| && |actions| == i
      invariant forall j :: 0 <= j < i ==> ActionOk(raw[j])
      invariant forall j :: 0 <= j < i ==> ChecksTo(raw[j], actions[j]) && ValidAction(actions[j])
    {
      var checked := CheckOutcomes(raw[i]);
      if checked.Err? {
        FirstErrorAt(raw, i);
        return Err(checked.error);
      }
      actions := actions + [Action(raw[i].name, checked.value)];
      i := i + 1;
    }
    FirstErrorNone(raw);
    r := Ok(actions);
  }

  /** The checks of one action, outcome by outcome. */
  method CheckOutcomes(a: RawAction) returns (r: Result<seq<Outcome>, UtilityError>)
    ensures r.Err? <==> ActionError(a).Some?
    ensures r.Err? ==> ActionError(a) == Some(r.error)
    ensures r.Ok? ==> ActionOk(a) && ChecksTo(a, Action(a.name, r.value))
  {
    if |a.outcomes| == 0 {
      return Err(NoOutcomes(a.name));
    }
    var os: seq<Outcome> := [];
    var k := 0;
    while k < |a.outcomes|
      invariant 0 <= k <= |a.outcomes| && |os| == k
      invariant forall j :: 0 <= j < k ==> OutcomeOk(a.outcomes[j]) && os[j] == Checked(a.outcomes[j])
      invariant FirstOutcomeError(a.name, a.outcomes) == FirstOutcomeError(a.name, a.outcomes[k..])
    {
      var o := a.outcomes[k];
      assert a.outcomes[k..][0] == o && a.outcomes[k..][1..] == a.outcomes[k + 1..];
      var e := OutcomeError(a.name, o);
      if e.Some? {
        return Err(e.value);
      }
      os := os + [Checked(o)];
      k := k + 1;
    }
    r := Ok(os);
  }

  /** The constructor: the actions dictionary must pass validate_actions. */
  method NewAgent(raw: seq<RawAction>, strategy: Strategy, transform: Option<real -> real>)
    returns (r: Result<Agent, UtilityError>)
    ensures r.Ok? <==> forall i :: 0 <= i < |raw| ==> ActionOk(raw[i])
    ensures r.Err? ==> FirstError(raw) == Some(r.error)
    ensures r.Ok? ==> Valid(r.value.actions) && r.value.strategy == strategy && r.value.transform == transform
    ensures r.Ok? ==> |r.value.actions| == |raw| && forall i :: 0 <= i < |raw| ==> ChecksTo(raw[i], r.value.actions[i])
  {
    var checked := ValidateActions(raw);
    FirstErrorNone(raw);
    if checked.Err? {
      return Err(checked.error);
    }
    r := Ok(Agent(checked.value, strategy, transform));
  }

  // ---------------------------------------------------------------------
  // Expected utility and risk measures

  /** The optional utility transform, the identity when absent. */
  function Apply(f: Option<real -> real>, u: real): real
  {
    if f.Some? then f.value(u) else u
  }

  /** The sum of p * f(u) over the outcomes, added left to right. */
  function ExpectedUtility(os: seq<Outcome>, f: Option<real -> real>): real
  {
    if |os| == 0 then 0.0
    else ExpectedUtility(os[..|os| - 1], f) + os[|os| - 1].probability * Apply(f, os[|os| - 1].utility)
  }

  function TotalProbability(os: seq<Outcome>): real
  {
    if |os| == 0 then 0.0 else TotalProbability(os[..|os| - 1]) + os[|os| - 1].probability
  }

  /** calculate_expected_utility: the accumulator loop. */
  method CalculateExpectedUtility(os: seq<Outcome>, f: Option<real -> real>) returns (eu: real)
    ensures eu == ExpectedUtility(os, f)
  {
    eu := 0.0;
    for i := 0 to |os|
      invariant eu == ExpectedUtility(os[..i], f)
    {
      assert os[..i + 1][..i] == os[..i];
      eu := eu + os[i].probability * Apply(f, os[i].utility);
    }
    assert os[..|os|] == os;
  }

  /** With non-negative probabilities, expected utility lies between the
      total probability times the least and times the greatest transformed
      utility. */
  lemma ExpectedUtilityBounds(os: seq<Outcome>, f: Option<real -> real>, lo: real, hi: real)
    requires forall i :: 0 <= i < |os| ==> os[i].probability >= 0.0
    requires forall i :: 0 <= i < |os| ==> lo <= Apply(f, os[i].utility) <= hi
    ensures lo * TotalProbability(os) <= ExpectedUtility(os, f) <= hi * TotalProbability(os)
  {
    ExpectedUtilityBetween(os, f, lo, hi);
    WeightedIsProduct(os, lo);
    WeightedIsProduct(os, hi);
  }

  /** The sum of p * x over the outcomes: the expected utility of the
      constant x. */
  function Weighted(os: seq<Outcome>, x: real): real
  {
    if |os| == 0 then 0.0 else Weighted(os[..|os| - 1], x) + os[|os| - 1].probability * x
  }

  lemma {:induction false} ExpectedUtilityBetween(os: seq<Outcome>, f: Option<real -> real>, lo: real, hi: real)
    requires forall i :: 0 <= i < |os| ==> os[i].probability >= 0.0
    requires forall i :: 0 <= i < |os| ==> lo <= Apply(f, os[i].utility) <= hi
    ensures Weighted(os, lo) <= ExpectedUtility(os, f) <= Weighted(os, hi)
    decreases |os|
  {
    if |os| > 0 {
      var n := |os| - 1;
      ExpectedUtilityBetween(os[..n], f, lo, hi);
      BetweenStep(os, f, lo, hi);
    }
  }

  /** The last outcome keeps the sum between the bounds. */
  lemma BetweenStep(os: seq<Outcome>, f: Option<real -> real>, lo: real, hi: real)
    requires |os| > 0 && os[|os| - 1].probability >= 0.0 && lo <= Apply(f, os[|os| - 1].utility) <= hi
    requires var init := os[..|os| - 1];
      Weighted(init, lo) <= ExpectedUtility(init, f) <= Weighted(init, hi)
    ensures Weighted(os, lo) <= ExpectedUtility(os, f) <= Weighted(os, hi)
  {
    var init := os[..|os| - 1];
    AddWeighted(Weighted(init, lo), ExpectedUtility(init, f), Weighted(init, hi),
                os[|os| - 1].probability, lo, Apply(f, os[|os| - 1].utility), hi,
                Weighted(os, lo), ExpectedUtility(os, f), Weighted(os, hi));
  }

  /** Adding p times lo, v and hi, with p non-negative and v between lo and
      hi, keeps three ordered sums ordered. */
  lemma AddWeighted(a: real, b: real, c: real, p: real, lo: real, v: real, hi: real, a': real, b': real, c': real)
    requires a <= b <= c && p >= 0.0 && lo <= v <= hi
    requires a' == a + p * lo && b' == b + p * v && c' == c + p * hi
    ensures a' <= b' <= c'
  {
    ScaleOrder(p, lo, v);
    ScaleOrder(p, v, hi);
  }

  lemma ScaleOrder(p: real, x: real, y: real)
    requires p >= 0.0 && x <= y
    ensures p * x <= p * y
  {
  }

  lemma {:induction false} WeightedIsProduct(os: seq<Outcome>, x: real)
    ensures Weighted(os, x) == x * TotalProbability(os)
    decreases |os|
  {
    if |os| > 0 {
      var n := |os| - 1;
      WeightedIsProduct(os[..n], x);
      ScaleSum(x, TotalProbability(os[..n]), os[n].probability);
    }
  }

  lemma ScaleSum(a: real, x: real, y: real)
    ensures a * (x + y) == a * x + y * a
  {
  }

  /** Python's sum(p * u): the expected utility without the transform. */
  function Mean(os: seq<Outcome>): real
  {
    ExpectedUtility(os, None)
  }

  /** sum(p * (u - e) ** 2), added left to right. */
  function Variance(os: seq<Outcome>, e: real): real
  {
    if |os| == 0 then 0.0
    else Variance(os[..|os| - 1], e) + os[|os| - 1].probability * (os[|os| - 1].utility - e) * (os[|os| - 1].utility - e)
  }

  lemma {:induction false} VarianceNonNegative(os: seq<Outcome>, e: real)
    requires forall i :: 0 <= i < |os| ==> os[i].probability >= 0.0
    ensures Variance(os, e) >= 0.0
    decreases |os|
  {
    if |os| > 0 {
      var n := |os| - 1;
      VarianceNonNegative(os[..n], e);
      var d := os[n].utility - e;
      assert d * d >= 0.0;
      assert os[n].probability * d * d >= 0.0;
    }
  }

  /** math.sqrt as a parameter: on the non-negative reals it gives the
      non-negative root, and the root of 0 is 0. */
  ghost predicate SqrtLike(sqrt: real -> real)
  {
    sqrt(0.0) == 0.0 && forall x :: x >= 0.0 ==> sqrt(x) >= 0.0 && sqrt(x) * sqrt(x) == x
  }

  lemma SqrtZero(sqrt: real -> real, x: real)
    requires SqrtLike(sqrt) && x >= 0.0
    ensures sqrt(x) >= 0.0 && (sqrt(x) == 0.0 <==> x == 0.0)
  {
    assert sqrt(x) * sqrt(x) == x;
  }

  function MinUtility(os: seq<Outcome>): (m: real)
    requires |os| > 0
    ensures exists i :: 0 <= i < |os| && os[i].utility == m
    ensures forall i :: 0 <= i < |os| ==> m <= os[i].utility
  {
    if |os| == 1 then os[0].utility
    else
      var rest := MinUtility(os[1..]);
      assert forall i :: 1 <= i < |os| ==> os[i] == os[1..][i - 1];
      if os[0].utility <= rest then os[0].utility else rest
  }

  function MaxUtility(os: seq<Outcome>): (m: real)
    requires |os| > 0
    ensures exists i :: 0 <= i < |os| && os[i].utility == m
    ensures forall i :: 0 <= i < |os| ==> os[i].utility <= m
  {
    if |os| == 1 then os[0].utility
    else
      var rest := MaxUtility(os[1..]);
      assert forall i :: 1 <= i < |os| ==> os[i] == os[1..][i - 1];
      if os[0].utility >= rest then os[0].utility else rest
  }

  /** The risk-adjusted utility of the EVK strategy: E - sqrt(variance). */
  function EvkValue(os: seq<Outcome>, sqrt: real -> real): real
  {
    Mean(os) - sqrt(Variance(os, Mean(os)))
  }

  /** A spread-free action keeps its expected utility; any other loses its
      standard deviation. */
  lemma EvkAdjustment(os: seq<Outcome>, sqrt: real -> real)
    requires SqrtLike(sqrt) && forall i :: 0 <= i < |os| ==> os[i].probability >= 0.0
    ensures EvkValue(os, sqrt) <= Mean(os)
    ensures EvkValue(os, sqrt) == Mean(os) <==> Variance(os, Mean(os)) == 0.0
  {
    VarianceNonNegative(os, Mean(os));
    SqrtZero(sqrt, Variance(os, Mean(os)));
  }

  // ---------------------------------------------------------------------
  // Arg-max with the first action winning ties

  /** i is the first index of a maximal value. */
  predicate IsFirstMax(vs: seq<real>, i: int)
  {
    0 <= i < |vs| && (forall j :: 0 <= j < |vs| ==> vs[j] <= vs[i]) && (forall j :: 0 <= j < i ==> vs[j] < vs[i])
  }

  /** Python's max(d, key=d.get): the first key whose value is maximal. */
  method FirstMax(vs: seq<real>) returns (i: nat)
    requires |vs| > 0
    ensures IsFirstMax(vs, i)
  {
    i := 0;
    var k := 1;
    while k < |vs|
      invariant 1 <= k <= |vs| && i < k
      invariant forall j :: 0 <= j < k ==> vs[j] <= vs[i]
      invariant forall j :: 0 <= j < i ==> vs[j] < vs[i]
    {
      if vs[k] > vs[i] {
        i := k;
      }
      k := k + 1;
    }
  }

  /** The choice is determined: only one index is the first maximal one. */
  lemma FirstMaxUnique(vs: seq<real>, i: int, j: int)
    requires IsFirstMax(vs, i) && IsFirstMax(vs, j)
    ensures i == j
  {
    assert vs[i] <= vs[j] && vs[j] <= vs[i];
  }

  /** The value each strategy ranks the actions by. */
  function MeuValues(actions: seq<Action>, f: Option<real -> real>): (vs: seq<real>)
    ensures |vs| == |actions|
  {
    seq(|actions|, i requires 0 <= i < |actions| => ExpectedUtility(actions[i].outcomes, f))
  }

  function WorstValues(actions: seq<Action>): (vs: seq<real>)
    requires Valid(actions)
    ensures |vs| == |actions|
  {
    seq(|actions|, i requires 0 <= i < |actions| => MinUtility(actions[i].outcomes))
  }

  function EvkValues(actions: seq<Action>, sqrt: real -> real): (vs: seq<real>)
    ensures |vs| == |actions|
  {
    seq(|actions|, i requires 0 <= i < |actions| => EvkValue(actions[i].outcomes, sqrt))
  }

  /** The action chosen from vs: its name and value. */
  ghost predicate ChoiceOf(actions: seq<Action>, vs: seq<real>, name: string, value: real)
  {
    exists i :: IsFirstMax(vs, i) && i < |actions| && actions[i].name == name && value == vs[i]
  }

  // ---------------------------------------------------------------------
  // Decisions

  /** Expected utility of each action, in order. */
  method ExpectedUtilities(actions: seq<Action>, f: Option<real -> real>) returns (vs: seq<real>)
    ensures vs == MeuValues(actions, f)
  {
    vs := [];
    for i := 0 to |actions|
      invariant vs == MeuValues(actions[..i], f)
    {
      var eu := CalculateExpectedUtility(actions[i].outcomes, f);
      assert actions[..i + 1][i] == actions[i];
      vs := vs + [eu];
    }
    assert actions[..|actions|] == actions;
  }

  /** calculate_minimax_decision: each action's worst outcome, then the
      action whose worst outcome is best; ValueError from max() when there
      are no actions. */
  method MinimaxDecision(actions: seq<Action>) returns (r: Result<(string, real), UtilityError>)
    requires Valid(actions)
    ensures r.Err? <==> |actions| == 0
    ensures r.Err? ==> r.error == EmptyChoice
    ensures r.Ok? ==> ChoiceOf(actions, WorstValues(actions), r.value.0, r.value.1)
  {
    var worst: seq<real> := [];
    for i := 0 to |actions|
      invariant |worst| == i
      invariant forall j :: 0 <= j < i ==> worst[j] == MinUtility(actions[j].outcomes)
    {
      worst := worst + [MinUtility(actions[i].outcomes)];
    }
    assert worst == WorstValues(actions);
    if |worst| == 0 {
      return Err(EmptyChoice);
    }
    var best := FirstMax(worst);
    r := Ok((actions[best].name, worst[best]));
  }

  /** calculate_evk_decision: each action's expected utility less its
      standard deviation, then the best of those. */
  method EvkDecision(actions: seq<Action>, sqrt: real -> real) returns (r: Result<(string, real), UtilityError>)
    ensures r.Err? <==> |actions| == 0
    ensures r.Err? ==> r.error == EmptyChoice
    ensures r.Ok? ==> ChoiceOf(actions, EvkValues(actions, sqrt), r.value.0, r.value.1)
  {
    var values: seq<real> := [];
    for i := 0 to |actions|
      invariant |values| == i
      invariant forall j :: 0 <= j < i ==> values[j] == EvkValue(actions[j].outcomes, sqrt)
    {
      var os := actions[i].outcomes;
      var e := Mean(os);
      var variance := Variance(os, e);
      values := values + [e - sqrt(variance)];
    }
    assert values == EvkValues(actions, sqrt);
    if |values| == 0 {
      return Err(EmptyChoice);
    }
    var best := FirstMax(values);
    r := Ok((actions[best].name, values[best]));
  }

  /** The additional information decide() returns with its choice. */
  datatype Info =
    | NoInfo
    | StrategyUsed(strategy: string)
    | MeuInfo(strategy: string, allUtilities: seq<real>, expectedUtilities: seq<real>)

  const RiskAdjustedLabel := "Expected Value with Knowledge (Risk-adjusted)"

  /** The value None stands for -infinity. */
  datatype Decision = Decision(action: string, utility: Option<real>, info: Info)

  /** decide(): the choice of the agent's strategy. */
  method Decide(a: Agent, sqrt: real -> real) returns (r: Result<Decision, UtilityError>)
    requires Valid(a.actions)
    ensures a.strategy.MaximumExpectedUtility? ==> r.Ok?
    ensures r.Ok? && a.strategy.MaximumExpectedUtility? && |a.actions| == 0 ==>
      r.value == Decision("No valid actions", None, NoInfo)
    ensures r.Ok? && a.strategy.MaximumExpectedUtility? && |a.actions| > 0 ==>
      r.value.utility.Some? &&
      ChoiceOf(a.actions, MeuValues(a.actions, a.transform), r.value.action, r.value.utility.value) &&
      r.value.info == MeuInfo("Maximum Expected Utility", MeuValues(a.actions, a.transform), MeuValues(a.actions, a.transform))
    ensures r.Ok? && a.strategy.Minimax? ==>
      r.value.utility.Some? && ChoiceOf(a.actions, WorstValues(a.actions), r.value.action, r.value.utility.value) &&
      r.value.info == StrategyUsed("Minimax")
    ensures r.Ok? && a.strategy.ExpectedValueWithKnowledge? ==>
      r.value.utility.Some? && ChoiceOf(a.actions, EvkValues(a.actions, sqrt), r.value.action, r.value.utility.value) &&
      r.value.info == StrategyUsed(RiskAdjustedLabel)
    ensures r.Err? ==> (a.strategy.OtherStrategy? && r.error == UnknownStrategy(a.strategy.name)) ||
                       ((a.strategy.Minimax? || a.strategy.ExpectedValueWithKnowledge?) && |a.actions| == 0 &&
                        r.error == EmptyChoice)
  {
    match a.strategy
    case MaximumExpectedUtility =>
      var values := ExpectedUtilities(a.actions, a.transform);
      if |values| == 0 {
        return Ok(Decision("No valid actions", None, NoInfo));
      }
      var best := FirstMax(values);
      var again := ExpectedUtilities(a.actions, a.transform);
      r := Ok(Decision(a.actions[best].name, Some(values[best]), MeuInfo("Maximum Expected Utility", values, again)));
    case Minimax =>
      var m := MinimaxDecision(a.actions);
      if m.Err? {
        return Err(m.error);
      }
      r := Ok(Decision(m.value.0, Some(m.value.1), StrategyUsed("Minimax")));
    case ExpectedValueWithKnowledge =>
      var e := EvkDecision(a.actions, sqrt);
      if e.Err? {
        return Err(e.error);
      }
      r := Ok(Decision(e.value.0, Some(e.value.1), StrategyUsed(RiskAdjustedLabel)));
    case OtherStrategy(name) =>
      r := Err(UnknownStrategy(name));
  }

  // ---------------------------------------------------------------------
  // Risk profile

  datatype RiskLevel = RiskFree | LowRisk | MediumRisk | HighRisk

  /** _determine_risk_level. */
  function RiskLevelOf(stdDev: real, e: real): (r: RiskLevel)
    ensures r == RiskFree <==> stdDev == 0.0
    ensures r == LowRisk <==> stdDev != 0.0 && e > 0.0 && stdDev / e < 0.5
    ensures r == MediumRisk <==> stdDev != 0.0 && e > 0.0 && 0.5 <= stdDev / e < 1.0
    ensures r == HighRisk <==> stdDev != 0.0 && (e <= 0.0 || stdDev / e >= 1.0)
  {
    if stdDev == 0.0 then RiskFree
    else if e > 0.0 && stdDev / e < 0.5 then LowRisk
    else if e > 0.0 && stdDev / e < 1.0 then MediumRisk
    else HighRisk
  }

  /** One entry of analyze_risk_profile; a coefficient of variation of None
      stands for infinity. */
  datatype RiskProfile = RiskProfile(expectedUtility: real, variance: real, stdDeviation: real,
                                     utilityRange: real, coefficientVariation: Option<real>,
                                     riskLevel: RiskLevel)

  function ProfileOf(os: seq<Outcome>, sqrt: real -> real): RiskProfile
    requires |os| > 0
  {
    var e := Mean(os);
    var v := Variance(os, e);
    var sd := sqrt(v);
    RiskProfile(e, v, sd, MaxUtility(os) - MinUtility(os),
                if e != 0.0 then Some(sd / (if e < 0.0 then -e else e)) else None,
                RiskLevelOf(sd, e))
  }

  /** The measures of a profile: variance, deviation and range are never
      negative, the coefficient is infinite exactly when E is 0, and the
      action is risk-free exactly when its variance is 0. */
  lemma ProfileFacts(os: seq<Outcome>, sqrt: real -> real)
    requires |os| > 0 && SqrtLike(sqrt)
    requires forall i :: 0 <= i < |os| ==> os[i].probability >= 0.0
    ensures ProfileOf(os, sqrt).variance >= 0.0 && ProfileOf(os, sqrt).stdDeviation >= 0.0
    ensures ProfileOf(os, sqrt).utilityRange >= 0.0
    ensures ProfileOf(os, sqrt).coefficientVariation.None? <==> Mean(os) == 0.0
    ensures ProfileOf(os, sqrt).coefficientVariation.Some? ==> ProfileOf(os, sqrt).coefficientVariation.value >= 0.0
    ensures ProfileOf(os, sqrt).riskLevel == RiskFree <==> Variance(os, Mean(os)) == 0.0
  {
    var e := Mean(os);
    var v := Variance(os, e);
    var p := ProfileOf(os, sqrt);
    VarianceNonNegative(os, e);
    SqrtZero(sqrt, v);
    assert p.variance == v && p.stdDeviation == sqrt(v) && p.riskLevel == RiskLevelOf(sqrt(v), e);
    assert p.utilityRange >= 0.0 by {
      assert MinUtility(os) <= os[0].utility <= MaxUtility(os);
    }
    assert p.coefficientVariation == (if e != 0.0 then Some(sqrt(v) / (if e < 0.0 then -e else e)) else None);
    CoefficientNonNegative(sqrt(v), e);
  }

  lemma CoefficientNonNegative(sd: real, e: real)
    requires sd >= 0.0
    ensures e != 0.0 ==> sd / (if e < 0.0 then -e else e) >= 0.0
  {
  }

  /** analyze_risk_profile: one profile per action, in order. */
  method AnalyzeRiskProfile(actions: seq<Action>, sqrt: real -> real) returns (r: seq<(string, RiskProfile)>)
    requires Valid(actions)
    ensures |r| == |actions|
    ensures forall i :: 0 <= i < |actions| ==> r[i] == (actions[i].name, ProfileOf(actions[i].outcomes, sqrt))
  {
    r := [];
    for i := 0 to |actions|
      invariant |r| == i
      invariant forall j :: 0 <= j < i ==> r[j] == (actions[j].name, ProfileOf(actions[j].outcomes, sqrt))
    {
      var os := actions[i].outcomes;
      var e := Mean(os);
      var variance := Variance(os, e);
      var sd := sqrt(variance);
      var range := MaxUtility(os) - MinUtility(os);
      var cv := if e != 0.0 then Some(sd / (if e < 0.0 then -e else e)) else None;
      var profile := RiskProfile(e, variance, sd, range, cv, RiskLevelOf(sd, e));
      assert profile == ProfileOf(actions[i].outcomes, sqrt);
      r := r + [(actions[i].name, profile)];
    }
  }

  // ---------------------------------------------------------------------
  // The demonstration actions

  function DemoActions(): seq<Action>
  {
    [Action("Conservative Investment", [Outcome(0.8, 50.0), Outcome(0.2, 30.0)]),
     Action("Moderate Investment", [Outcome(0.6, 80.0), Outcome(0.3, 20.0), Outcome(0.1, -40.0)]),
     Action("Aggressive Investment", [Outcome(0.4, 150.0), Outcome(0.4, 10.0), Outcome(0.2, -100.0)])]
  }

  lemma DemoExpected()
    ensures MeuValues(DemoActions(), None) == [46.0, 50.0, 44.0]
  {
    var acts := DemoActions();
    var c, m, g := acts[0].outcomes, acts[1].outcomes, acts[2].outcomes;
    assert c[..1] == [c[0]] && c[..1][..0] == [];
    assert ExpectedUtility(c, None) == 46.0;
    assert m[..2] == [m[0], m[1]] && m[..2][..1] == [m[0]] && m[..2][..1][..0] == [];
    assert ExpectedUtility(m, None) == 50.0;
    assert g[..2] == [g[0], g[1]] && g[..2][..1] == [g[0]] && g[..2][..1][..0] == [];
    assert ExpectedUtility(g, None) == 44.0;
  }

  /** The demonstration's MEU decision: Moderate Investment, worth 50. */
  method DemoMeu(sqrt: real -> real) returns (r: Result<Decision, UtilityError>)
    ensures r.Ok? && r.value.action == "Moderate Investment" && r.value.utility == Some(50.0)
  {
    r := Decide(Agent(DemoActions(), MaximumExpectedUtility, None), sqrt);
    DemoMeuChoice(r.value.action, r.value.utility.value);
  }

  lemma DemoMeuChoice(name: string, value: real)
    requires ChoiceOf(DemoActions(), MeuValues(DemoActions(), None), name, value)
    ensures name == "Moderate Investment" && value == 50.0
  {
    DemoExpected();
    var vs := MeuValues(DemoActions(), None);
    var i :| IsFirstMax(vs, i) && i < |DemoActions()| && DemoActions()[i].name == name && value == vs[i];
    assert vs[0] < vs[1];
  }

  lemma DemoWorst()
    ensures Valid(DemoActions()) && WorstValues(DemoActions()) == [30.0, -40.0, -100.0]
  {
    DemoValid();
    var acts := DemoActions();
    var c, m, g := acts[0].outcomes, acts[1].outcomes, acts[2].outcomes;
    MinIs(c, 1);
    MinIs(m, 2);
    MinIs(g, 2);
  }

  /** An outcome no other outcome undercuts gives the minimum. */
  lemma MinIs(os: seq<Outcome>, k: nat)
    requires k < |os| && forall i :: 0 <= i < |os| ==> os[k].utility <= os[i].utility
    ensures MinUtility(os) == os[k].utility
  {
    var m := MinUtility(os);
    var j :| 0 <= j < |os| && os[j].utility == m;
  }

  /** The demonstration's minimax decision: Conservative Investment, whose
      worst outcome is 30. */
  method DemoMinimax(sqrt: real -> real) returns (r: Result<Decision, UtilityError>)
    ensures r.Ok? && r.value.action == "Conservative Investment" && r.value.utility == Some(30.0)
  {
    r := Decide(Agent(DemoActions(), Minimax, None), sqrt);
    DemoMinimaxChoice(r.value.action, r.value.utility.value);
  }

  /** Every demonstration action has outcomes, each with a probability
      between 0 and 1. */
  lemma DemoValid()
    ensures Valid(DemoActions())
  {
    var acts := DemoActions();
    assert ValidAction(acts[0]) && ValidAction(acts[1]) && ValidAction(acts[2]);
  }

  lemma DemoMinimaxChoice(name: string, value: real)
    requires Valid(DemoActions()) && ChoiceOf(DemoActions(), WorstValues(DemoActions()), name, value)
    ensures name == "Conservative Investment" && value == 30.0
  {
    DemoWorst();
    var vs := WorstValues(DemoActions());
    var i :| IsFirstMax(vs, i) && i < |DemoActions()| && DemoActions()[i].name == name && value == vs[i];
    assert i == 0 by {
      assert vs[0] <= vs[i];
    }
  }
}

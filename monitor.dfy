/** The performance monitor: per name, a bounded history of metric
    values, endpoint requests and algorithm runs, and the statistics drawn
    from them. Each history map is a dictionary in insertion order; the
    timestamps the source attaches to records are left out. */
module Monitor {
  import opened Wrappers
  import opened Pairs

  // ---------------------------------------------------------------------
  // Records

  /** PerformanceMetric without its timestamp. */
  datatype Metric = Metric(name: string, value: real, unit: string)

  /** One request to an endpoint. */
  datatype EndpointRecord = EndpointRecord(duration: real, statusCode: int, error: Option<string>)

  /** One run of an algorithm. */
  datatype AlgorithmRecord = AlgorithmRecord(inputSize: int, duration: real, success: bool)

  /** record_endpoint's key: the method, a space, the endpoint. */
  function EndpointKey(httpMethod: string, endpoint: string): (key: string)
    ensures |key| == |httpMethod| + 1 + |endpoint|
    ensures key[..|httpMethod|] == httpMethod && key[|httpMethod|] == ' '
  {
    httpMethod + " " + endpoint
  }

  /** Requests with methods that hold no space share a key only when
      method and endpoint are both the same. */
  lemma EndpointKeyInjective(m1: string, e1: string, m2: string, e2: string)
    requires ' ' !in m1 && ' ' !in m2
    requires EndpointKey(m1, e1) == EndpointKey(m2, e2)
    ensures m1 == m2 && e1 == e2
  {
    var k := EndpointKey(m1, e1);
    assert m1 == k[..|m1|] == m2;
    assert e1 == k[|m1| + 1..] == e2;
  }

  // ---------------------------------------------------------------------
  // Histories

  /** A dictionary of lists in insertion order. */
  type Log<R> = seq<(string, seq<R>)>

  predicate DistinctNames<R>(log: Log<R>)
  {
    forall i, j :: 0 <= i < j < |log| ==> log[i].0 != log[j].0
  }

  /** The list kept for a name, None when the name is not tracked. */
  function ListOf<R>(log: Log<R>, name: string): (r: Option<seq<R>>)
    ensures r.None? <==> name !in Firsts(log)
  {
    if log == [] then None
    else if log[0].0 == name then Some(log[0].1)
    else ListOf(log[1..], name)
  }

  /** lst[-max_history:] applied when the list is longer than max_history.
      A positive bound keeps the last max_history entries, a zero bound
      keeps the whole list since [-0:] is [0:], a negative bound -n drops
      the first n entries. */
  function Trim<R>(s: seq<R>, maxHistory: int): (r: seq<R>)
    ensures |r| <= |s| && r == s[|s| - |r|..]
    ensures |s| <= maxHistory ==> r == s
    ensures maxHistory >= 1 ==> |r| == if |s| <= maxHistory then |s| else maxHistory
    ensures maxHistory == 0 ==> r == s
  {
    if |s| > maxHistory then
      if maxHistory > 0 then s[|s| - maxHistory..]
      else if maxHistory == 0 then s
      else if -maxHistory >= |s| then []
      else s[-maxHistory..]
    else s
  }

  /** A positive bound keeps the record just added. */
  lemma TrimKeepsNewest<R>(s: seq<R>, x: R, maxHistory: int)
    requires maxHistory >= 0
    ensures var r := Trim(s + [x], maxHistory); r != [] && r[|r| - 1] == x
  {
  }

  /** metrics[name].append(record) followed by the trim: a new name is added
      at the end of the dictionary, a tracked one keeps its place. */
  function Append<R>(log: Log<R>, name: string, record: R, maxHistory: int): (r: Log<R>)
    ensures Firsts(r) == if name in Firsts(log) then Firsts(log) else Firsts(log) + [name]
  {
    if log == [] then [(name, Trim([record], maxHistory))]
    else if log[0].0 == name then
      var r := [(name, Trim(log[0].1 + [record], maxHistory))] + log[1..];
      FirstsPrepend(r[0], log[1..]);
      FirstsPrepend(log[0], log[1..]);
      r
    else
      var rest := Append(log[1..], name, record, maxHistory);
      FirstsPrepend(log[0], log[1..]);
      FirstsPrepend(log[0], rest);
      [log[0]] + rest
  }

  /** After recording, the name's list is its old list (empty for a new
      name) with the record added and trimmed, and no other list changes. */
  lemma {:induction false} AppendLists<R>(log: Log<R>, name: string, record: R, maxHistory: int, k: string)
    ensures ListOf(Append(log, name, record, maxHistory), name) ==
      Some(Trim((if name in Firsts(log) then ListOf(log, name).value else []) + [record], maxHistory))
    ensures k != name ==> ListOf(Append(log, name, record, maxHistory), k) == ListOf(log, k)
    decreases |log|
  {
    if log != [] && log[0].0 != name {
      AppendLists(log[1..], name, record, maxHistory, k);
      assert Firsts(log) == [log[0].0] + Firsts(log[1..]);
    }
  }

  /** A name that occurs once among the tracked names still occurs once after an append. */
  lemma AppendDistinct<R>(log: Log<R>, name: string, record: R, maxHistory: int)
    requires DistinctNames(log)
    ensures DistinctNames(Append(log, name, record, maxHistory))
  {
    var r := Append(log, name, record, maxHistory);
    forall i, j | 0 <= i < j < |r| ensures r[i].0 != r[j].0 {
      assert Firsts(r)[i] == r[i].0 && Firsts(r)[j] == r[j].0;
      if j < |log| {
        assert Firsts(log)[i] == log[i].0 && Firsts(log)[j] == log[j].0;
      } else {
        assert Firsts(log)[i] == log[i].0;
      }
    }
  }

  /** Every list of the log is at most maxHistory long, when that is positive. */
  predicate Bounded<R>(log: Log<R>, maxHistory: int)
  {
    maxHistory >= 1 ==> forall i :: 0 <= i < |log| ==> |log[i].1| <= maxHistory
  }

  /** Appending keeps every list within a positive bound. */
  lemma {:induction false} AppendBounded<R>(log: Log<R>, name: string, record: R, maxHistory: int)
    requires Bounded(log, maxHistory)
    ensures Bounded(Append(log, name, record, maxHistory), maxHistory)
    decreases |log|
  {
    if log != [] && log[0].0 != name {
      AppendBounded(log[1..], name, record, maxHistory);
    }
  }

  /** All lists one after the other, in insertion order. */
  function Concat<R>(log: Log<R>): seq<R>
  {
    if log == [] then [] else log[0].1 + Concat(log[1..])
  }

  /** sum(len(v) for v in d.values()). */
  function Total<R>(log: Log<R>): nat
  {
    if log == [] then 0 else |log[0].1| + Total(log[1..])
  }

  /** The records gathered for statistics over every name are as many as
      the summary's total. */
  lemma {:induction false} ConcatTotal<R>(log: Log<R>)
    ensures |Concat(log)| == Total(log)
  {
    if log != [] { ConcatTotal(log[1..]); }
  }

  /** A bounded log holds at most maxHistory records per name. */
  lemma {:induction false} TotalBounded<R>(log: Log<R>, maxHistory: int)
    requires maxHistory >= 1 && Bounded(log, maxHistory)
    ensures Total(log) <= maxHistory * |log|
  {
    if log != [] {
      TotalBounded(log[1..], maxHistory);
    }
  }

  /** Recording grows the total by one when no trimming happens, and never
      by more. */
  lemma {:induction false} AppendTotal<R>(log: Log<R>, name: string, record: R, maxHistory: int)
    ensures Total(Append(log, name, record, maxHistory)) <= Total(log) + 1
    ensures maxHistory == 0 ==> Total(Append(log, name, record, maxHistory)) == Total(log) + 1
    decreases |log|
  {
    if log != [] && log[0].0 != name {
      AppendTotal(log[1..], name, record, maxHistory);
    }
  }

  // ---------------------------------------------------------------------
  // Statistics

  /** What get_endpoint_stats and get_algorithm_stats return: the counts
      and the minimum, maximum and mean duration, as numbers rather than
      text. */
  datatype Stats = Stats(total: nat, successful: nat, failed: nat, minDuration: real, maxDuration: real, meanDuration: real)

  /** The number of successful outcomes. */
  function Successes(ds: seq<(real, bool)>): (n: nat)
    ensures n <= |ds|
  {
    if ds == [] then 0 else (if ds[0].1 then 1 else 0) + Successes(ds[1..])
  }

  /** Every outcome succeeded exactly when all are counted, and none did
      exactly when none is. */
  lemma {:induction false} SuccessesExtremes(ds: seq<(real, bool)>)
    ensures Successes(ds) == |ds| <==> forall i :: 0 <= i < |ds| ==> ds[i].1
    ensures Successes(ds) == 0 <==> forall i :: 0 <= i < |ds| ==> !ds[i].1
  {
    if ds != [] {
      SuccessesExtremes(ds[1..]);
      assert forall i :: 1 <= i < |ds| ==> ds[i] == ds[1..][i - 1];
    }
  }

  function MinDuration(ds: seq<(real, bool)>): (m: real)
    requires ds != []
    ensures forall i :: 0 <= i < |ds| ==> m <= ds[i].0
    ensures exists i :: 0 <= i < |ds| && m == ds[i].0
  {
    if |ds| == 1 then ds[0].0
    else
      var rest := MinDuration(ds[1..]);
      assert forall i :: 1 <= i < |ds| ==> ds[i] == ds[1..][i - 1];
      if ds[0].0 <= rest then ds[0].0 else rest
  }

  function MaxDuration(ds: seq<(real, bool)>): (m: real)
    requires ds != []
    ensures forall i :: 0 <= i < |ds| ==> ds[i].0 <= m
    ensures exists i :: 0 <= i < |ds| && m == ds[i].0
  {
    if |ds| == 1 then ds[0].0
    else
      var rest := MaxDuration(ds[1..]);
      assert forall i :: 1 <= i < |ds| ==> ds[i] == ds[1..][i - 1];
      if ds[0].0 >= rest then ds[0].0 else rest
  }

  function SumDuration(ds: seq<(real, bool)>): real
  {
    if ds == [] then 0.0 else ds[0].0 + SumDuration(ds[1..])
  }

  /** n copies of x added up. */
  function Scaled(n: nat, x: real): (r: real)
  {
    if n == 0 then 0.0 else Scaled(n - 1, x) + x
  }

  /** Adding up n copies of x is multiplying x by n. */
  lemma {:induction false} ScaledIsProduct(n: nat, x: real)
    ensures Scaled(n, x) == n as real * x
  {
    if n > 0 {
      ScaledIsProduct(n - 1, x);
      assert (n - 1) as real * x + x == n as real * x;
    }
  }

  /** The sum lies between |ds| copies of any lower bound and |ds| copies
      of any upper bound of the durations. */
  lemma {:induction false} SumBetween(ds: seq<(real, bool)>, lo: real, hi: real)
    requires forall i :: 0 <= i < |ds| ==> lo <= ds[i].0 <= hi
    ensures Scaled(|ds|, lo) <= SumDuration(ds) <= Scaled(|ds|, hi)
  {
    if ds != [] {
      assert forall i :: 1 <= i < |ds| ==> ds[i] == ds[1..][i - 1];
      SumBetween(ds[1..], lo, hi);
    }
  }

  /** A sum of n values between lo and hi has its mean between them. */
  lemma {:induction false} MeanBetween(sum: real, n: nat, lo: real, hi: real)
    requires n > 0 && Scaled(n, lo) <= sum <= Scaled(n, hi)
    ensures lo <= sum / n as real <= hi
  {
    ScaledIsProduct(n, lo);
    ScaledIsProduct(n, hi);
    var m := sum / n as real;
    assert m * n as real == sum;
  }

  /** The mean of the durations lies between their minimum and maximum. */
  lemma {:induction false} MeanFacts(ds: seq<(real, bool)>)
    requires ds != []
    ensures MinDuration(ds) <= SumDuration(ds) / |ds| as real <= MaxDuration(ds)
  {
    var lo, hi := MinDuration(ds), MaxDuration(ds);
    SumBetween(ds, lo, hi);
    MeanBetween(SumDuration(ds), |ds|, lo, hi);
  }

  /** The mean times the count gives back the sum. */
  lemma {:induction false} MeanTimesCount(ds: seq<(real, bool)>)
    requires ds != []
    ensures SumDuration(ds) / |ds| as real * |ds| as real == SumDuration(ds)
  {
    var s, n := SumDuration(ds), |ds| as real;
    assert s / n * n == s;
  }

  /** statistics.mean of the durations. */
  function MeanDuration(ds: seq<(real, bool)>): (m: real)
    requires ds != []
    ensures MinDuration(ds) <= m <= MaxDuration(ds)
  {
    MeanFacts(ds);
    SumDuration(ds) / |ds| as real
  }

  /** The statistics of a non-empty list of (duration, succeeded) pairs. */
  function Summarise(ds: seq<(real, bool)>): (s: Stats)
    requires ds != []
    ensures s.total == |ds| && s.successful == Successes(ds) && s.successful + s.failed == s.total
    ensures s.minDuration <= s.meanDuration <= s.maxDuration
    ensures forall i :: 0 <= i < |ds| ==> s.minDuration <= ds[i].0 <= s.maxDuration
    ensures s.meanDuration == MeanDuration(ds)
  {
    Stats(|ds|, Successes(ds), |ds| - Successes(ds), MinDuration(ds), MaxDuration(ds), MeanDuration(ds))
  }

  /** An endpoint request succeeded when its status was 200. */
  function EndpointOutcomes(recs: seq<EndpointRecord>): (ds: seq<(real, bool)>)
    ensures |ds| == |recs|
    ensures forall i :: 0 <= i < |recs| ==> ds[i] == (recs[i].duration, recs[i].statusCode == 200)
  {
    seq(|recs|, i requires 0 <= i < |recs| => (recs[i].duration, recs[i].statusCode == 200))
  }

  function AlgorithmOutcomes(recs: seq<AlgorithmRecord>): (ds: seq<(real, bool)>)
    ensures |ds| == |recs|
    ensures forall i :: 0 <= i < |recs| ==> ds[i] == (recs[i].duration, recs[i].success)
  {
    seq(|recs|, i requires 0 <= i < |recs| => (recs[i].duration, recs[i].success))
  }

  /** The records a statistics call looks at: one name's list when a
      non-empty name is given (None when it is not tracked), otherwise every
      list. */
  function Selected<R>(log: Log<R>, name: Option<string>): (r: Option<seq<R>>)
    ensures name.Some? && name.value != "" ==> r == ListOf(log, name.value)
    ensures name.None? || name.value == "" ==> r == Some(Concat(log))
  {
    if name.Some? && name.value != "" then ListOf(log, name.value) else Some(Concat(log))
  }

  /** get_endpoint_stats: None for an untracked endpoint or when there is
      nothing to count. */
  function EndpointStats(log: Log<EndpointRecord>, endpoint: Option<string>): (r: Option<Stats>)
    ensures r.None? <==> Selected(log, endpoint).None? || Selected(log, endpoint).value == []
    ensures r.Some? ==> var recs := Selected(log, endpoint).value;
      r.value.total == |recs| &&
      r.value.successful == Successes(EndpointOutcomes(recs)) &&
      r.value.failed == |recs| - r.value.successful &&
      forall i :: 0 <= i < |recs| ==> r.value.minDuration <= recs[i].duration <= r.value.maxDuration
  {
    var data := Selected(log, endpoint);
    if data.None? || data.value == [] then None
    else Some(Summarise(EndpointOutcomes(data.value)))
  }

  /** get_algorithm_stats: the same over the success flag. */
  function AlgorithmStats(log: Log<AlgorithmRecord>, algorithm: Option<string>): (r: Option<Stats>)
    ensures r.None? <==> Selected(log, algorithm).None? || Selected(log, algorithm).value == []
    ensures r.Some? ==> var recs := Selected(log, algorithm).value;
      r.value.total == |recs| &&
      r.value.successful == Successes(AlgorithmOutcomes(recs)) &&
      r.value.failed == |recs| - r.value.successful &&
      forall i :: 0 <= i < |recs| ==> r.value.minDuration <= recs[i].duration <= r.value.maxDuration
  {
    var data := Selected(log, algorithm);
    if data.None? || data.value == [] then None
    else Some(Summarise(AlgorithmOutcomes(data.value)))
  }

  /** Counting the successes of every endpoint: all requests answered 200
      exactly when nothing failed. */
  lemma AllOk(log: Log<EndpointRecord>)
    requires EndpointStats(log, None).Some?
    ensures var s := EndpointStats(log, None).value;
      s.total == Total(log) &&
      (s.failed == 0 <==> forall i :: 0 <= i < |Concat(log)| ==> Concat(log)[i].statusCode == 200)
  {
    ConcatTotal(log);
    var ds := EndpointOutcomes(Concat(log));
    SuccessesExtremes(ds);
  }

  /** get_summary without its timestamp. */
  datatype Summary = Summary(totalMetrics: nat, totalEndpointRequests: nat, totalAlgorithmRuns: nat,
                             endpointsTracked: nat, algorithmsTracked: nat)

  // ---------------------------------------------------------------------
  // The monitor object

  class PerformanceMonitor {
    const maxHistory: int
    var metrics: Log<Metric>
    var endpoints: Log<EndpointRecord>
    var algorithms: Log<AlgorithmRecord>

    /** Each dictionary has distinct names and, under a positive bound,
        lists no longer than it. */
    ghost predicate Valid()
      reads this
    {
      DistinctNames(metrics) && DistinctNames(endpoints) && DistinctNames(algorithms) &&
      Bounded(metrics, maxHistory) && Bounded(endpoints, maxHistory) && Bounded(algorithms, maxHistory)
    }

    constructor (maxHistory: int)
      ensures Valid() && this.maxHistory == maxHistory
      ensures metrics == [] && endpoints == [] && algorithms == []
    {
      this.maxHistory := maxHistory;
      metrics, endpoints, algorithms := [], [], [];
    }

    /** record_metric. */
    method RecordMetric(name: string, value: real, unit: string)
      requires Valid()
      modifies this`metrics
      ensures Valid()
      ensures metrics == Append(old(metrics), name, Metric(name, value, unit), maxHistory)
    {
      AppendDistinct(metrics, name, Metric(name, value, unit), maxHistory);
      AppendBounded(metrics, name, Metric(name, value, unit), maxHistory);
      metrics := Append(metrics, name, Metric(name, value, unit), maxHistory);
    }

    /** record_endpoint, keyed by method and endpoint. */
    method RecordEndpoint(endpoint: string, httpMethod: string, duration: real, statusCode: int, error: Option<string>)
      requires Valid()
      modifies this`endpoints
      ensures Valid()
      ensures endpoints == Append(old(endpoints), EndpointKey(httpMethod, endpoint),
                                  EndpointRecord(duration, statusCode, error), maxHistory)
    {
      var key := EndpointKey(httpMethod, endpoint);
      var record := EndpointRecord(duration, statusCode, error);
      AppendDistinct(endpoints, key, record, maxHistory);
      AppendBounded(endpoints, key, record, maxHistory);
      endpoints := Append(endpoints, key, record, maxHistory);
    }

    /** record_algorithm. */
    method RecordAlgorithm(algorithm: string, inputSize: int, duration: real, success: bool)
      requires Valid()
      modifies this`algorithms
      ensures Valid()
      ensures algorithms == Append(old(algorithms), algorithm, AlgorithmRecord(inputSize, duration, success), maxHistory)
    {
      var record := AlgorithmRecord(inputSize, duration, success);
      AppendDistinct(algorithms, algorithm, record, maxHistory);
      AppendBounded(algorithms, algorithm, record, maxHistory);
      algorithms := Append(algorithms, algorithm, record, maxHistory);
    }

    /** get_summary: the record counts and the number of names tracked;
        under a positive bound no name holds more than maxHistory records. */
    method GetSummary() returns (s: Summary)
      requires Valid()
      ensures s.totalMetrics == Total(metrics) && s.totalEndpointRequests == Total(endpoints)
      ensures s.totalAlgorithmRuns == Total(algorithms)
      ensures s.endpointsTracked == |endpoints| && s.algorithmsTracked == |algorithms|
      ensures maxHistory >= 1 ==> s.totalEndpointRequests <= maxHistory * s.endpointsTracked
      ensures maxHistory >= 1 ==> s.totalAlgorithmRuns <= maxHistory * s.algorithmsTracked
    {
      if maxHistory >= 1 {
        TotalBounded(endpoints, maxHistory);
        TotalBounded(algorithms, maxHistory);
      }
      s := Summary(Total(metrics), Total(endpoints), Total(algorithms), |endpoints|, |algorithms|);
    }

    /** clear: every dictionary emptied. */
    method Clear()
      modifies this`metrics, this`endpoints, this`algorithms
      ensures Valid() && metrics == [] && endpoints == [] && algorithms == []
    {
      metrics, endpoints, algorithms := [], [], [];
    }
  }
}

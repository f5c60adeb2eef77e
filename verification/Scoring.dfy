/** The v1 scoring rule: hard gates over the results of a benchmark, and the verdict they give. */
module Scoring {
  import opened Common
  import opened Tables

  const RULE_V1 := "v1"

  /** Latency in milliseconds, cost in cents. */
  datatype TaskResult = TaskResult(taskRef: string, passed: bool, latency: real, cost: int, isSecurity: bool)

  datatype Threshold = Threshold(name: string, passed: bool)

  datatype Summary = Summary(passRate: real, avgLatency: real, cost: int, securityPassed: bool)

  datatype Tally = Tally(total: nat, passed: nat, latency: real, cost: int, securityTotal: nat, securityPassed: nat)

  function Count(b: bool): nat {
    if b then 1 else 0
  }

  function AddResult(t: Tally, r: TaskResult): Tally {
    Tally(t.total + 1, t.passed + Count(r.passed), t.latency + r.latency, t.cost + r.cost,
          t.securityTotal + Count(r.isSecurity), t.securityPassed + Count(r.isSecurity && r.passed))
  }

  function TallyOf(results: seq<TaskResult>): Tally
    decreases |results|
  {
    if results == [] then Tally(0, 0, 0.0, 0, 0, 0)
    else AddResult(TallyOf(results[..|results| - 1]), results[|results| - 1])
  }

  function Ratio(part: real, whole: nat, empty: real): real {
    if whole > 0 then part / whole as real else empty
  }

  function ThresholdsOf(t: Tally): seq<Threshold> {
    [Threshold("security_regression", Ratio(t.securityPassed as real, t.securityTotal, 1.0) >= 1.0),
     Threshold("pass_rate", Ratio(t.passed as real, t.total, 0.0) >= 0.8),
     Threshold("avg_latency", Ratio(t.latency, t.total, 0.0) <= 1000.0)]
  }

  function SummaryOf(t: Tally): Summary {
    Summary(Ratio(t.passed as real, t.total, 0.0), Ratio(t.latency, t.total, 0.0), t.cost,
            Ratio(t.securityPassed as real, t.securityTotal, 1.0) >= 1.0)
  }

  predicate AllPassed(thresholds: seq<Threshold>) {
    forall i :: 0 <= i < |thresholds| ==> thresholds[i].passed
  }

  /** An unknown rule yields no threshold at all. */
  method ApplyScoringRule(results: seq<TaskResult>, rule: string) returns (thresholds: seq<Threshold>, summary: Summary)
    ensures rule == RULE_V1 ==> thresholds == ThresholdsOf(TallyOf(results)) && summary == SummaryOf(TallyOf(results))
    ensures rule != RULE_V1 ==> thresholds == [] && summary == Summary(0.0, 0.0, 0, false)
  {
    if rule != RULE_V1 {
      return [], Summary(0.0, 0.0, 0, false);
    }
    var total := |results|;
    var passed, cost, securityTotal, securityPassed := 0, 0, 0, 0;
    var latency := 0.0;
    var i := 0;
    while i < |results|
      invariant i <= |results|
      invariant TallyOf(results[..i]) == Tally(i, passed, latency, cost, securityTotal, securityPassed)
    {
      var r := results[i];
      assert results[..i + 1][..i] == results[..i];
      if r.passed {
        passed := passed + 1;
      }
      latency := latency + r.latency;
      cost := cost + r.cost;
      if r.isSecurity {
        securityTotal := securityTotal + 1;
        if r.passed {
          securityPassed := securityPassed + 1;
        }
      }
      i := i + 1;
    }
    assert results[..i] == results;
    var passRate, avgLatency, securityPassRate := 0.0, 0.0, 1.0;
    if total > 0 {
      passRate := passed as real / total as real;
      avgLatency := latency / total as real;
    }
    if securityTotal > 0 {
      securityPassRate := securityPassed as real / securityTotal as real;
    }
    thresholds := [Threshold("security_regression", securityPassRate >= 1.0),
                   Threshold("pass_rate", passRate >= 0.8),
                   Threshold("avg_latency", avgLatency <= 1000.0)];
    summary := Summary(passRate, avgLatency, cost, securityPassRate >= 1.0);
  }

  method IsAllPassed(thresholds: seq<Threshold>) returns (r: bool)
    ensures r <==> AllPassed(thresholds)
  {
    for i := 0 to |thresholds|
      invariant forall j :: 0 <= j < i ==> thresholds[j].passed
    {
      if !thresholds[i].passed {
        return false;
      }
    }
    return true;
  }

  // -------------------------------------------------------------- the verdict

  function Where(results: seq<TaskResult>, passing: bool): set<nat> {
    set i | 0 <= i < |results| && (passing ==> results[i].passed)
  }

  function TotalLatency(results: seq<TaskResult>): real
    decreases |results|
  {
    if results == [] then 0.0 else TotalLatency(results[..|results| - 1]) + results[|results| - 1].latency
  }

  /** What a pass means: 80% of at least one task, no security task failed, a mean latency of at most a second. */
  ghost predicate Passes(results: seq<TaskResult>) {
    && |results| >= 1
    && 5 * |Where(results, true)| >= 4 * |results|
    && (forall i :: 0 <= i < |results| && results[i].isSecurity ==> results[i].passed)
    && TotalLatency(results) <= 1000.0 * |results| as real
  }

  lemma {:induction false} TallyCounts(results: seq<TaskResult>)
    ensures var t := TallyOf(results);
            t.total == |results| && t.passed == |Where(results, true)| && t.latency == TotalLatency(results)
    decreases |results|
  {
    if results == [] {
      assert Where(results, true) == {};
    } else {
      var n := |results| - 1;
      TallyCounts(results[..n]);
      assert Where(results, true) == Where(results[..n], true) + if results[n].passed then {n} else {};
    }
  }

  lemma {:induction false} TallySecurity(results: seq<TaskResult>)
    ensures var t := TallyOf(results);
            && t.securityPassed <= t.securityTotal
            && (t.securityPassed == t.securityTotal <==> forall i :: 0 <= i < |results| && results[i].isSecurity ==> results[i].passed)
    decreases |results|
  {
    if results != [] {
      var n := |results| - 1;
      TallySecurity(results[..n]);
      assert forall i :: 0 <= i < n ==> results[..n][i] == results[i];
    }
  }

  lemma RatioAtLeast(part: real, whole: nat, d: real)
    requires whole > 0
    ensures Ratio(part, whole, 0.0) >= d <==> part >= d * whole as real
    ensures Ratio(part, whole, 0.0) <= d <==> part <= d * whole as real
    ensures Ratio(part, whole, 0.0) == Ratio(part, whole, 1.0)
  {
    var w, q := whole as real, part / whole as real;
    assert q * w == part;
    if q > d {
      assert (q - d) * w > 0.0;
    } else if q < d {
      assert (d - q) * w > 0.0;
    }
  }

  /** The three gates together say exactly that. */
  lemma VerdictIff(results: seq<TaskResult>)
    ensures AllPassed(ThresholdsOf(TallyOf(results))) <==> Passes(results)
  {
    var t := TallyOf(results);
    TallyCounts(results);
    TallySecurity(results);
    var thresholds := ThresholdsOf(t);
    assert AllPassed(thresholds) <==> thresholds[0].passed && thresholds[1].passed && thresholds[2].passed;
    if t.total > 0 {
      RatioAtLeast(t.passed as real, t.total, 0.8);
      RatioAtLeast(t.latency, t.total, 1000.0);
    }
    if t.securityTotal > 0 {
      RatioAtLeast(t.securityPassed as real, t.securityTotal, 1.0);
    }
  }

  // ------------------------------------------------ permutation and monotonicity

  lemma AddCommutes(t: Tally, a: TaskResult, b: TaskResult)
    ensures AddResult(AddResult(t, a), b) == AddResult(AddResult(t, b), a)
  {
  }

  lemma {:induction false} TallyLast(results: seq<TaskResult>, i: nat)
    requires i < |results|
    ensures TallyOf(results) == AddResult(TallyOf(Without(results, i)), results[i])
    decreases |results|
  {
    var n := |results| - 1;
    if i == n {
      assert Without(results, i) == results[..n];
    } else {
      TallyLast(results[..n], i);
      assert Without(results, i)[..n - 1] == Without(results[..n], i);
      AddCommutes(TallyOf(Without(results[..n], i)), results[i], results[n]);
    }
  }

  /** Thresholds and summary do not depend on the order of the results. */
  lemma {:induction false} ScoreIgnoresOrder(a: seq<TaskResult>, b: seq<TaskResult>)
    requires multiset(a) == multiset(b)
    ensures TallyOf(a) == TallyOf(b)
    decreases |a|
  {
    if a == [] {
      assert |multiset(b)| == 0;
    } else {
      var n := |a| - 1;
      var i := Cancel(a, b, a[n]);
      ScoreIgnoresOrder(a[..n], Without(b, i));
      TallyLast(b, i);
    }
  }

  /** `b` differs from `a` only in tasks that pass where they failed. */
  ghost predicate PassesMore(a: seq<TaskResult>, b: seq<TaskResult>) {
    |a| == |b| && forall i :: 0 <= i < |a| ==> b[i] == a[i].(passed := b[i].passed) && (a[i].passed ==> b[i].passed)
  }

  lemma {:induction false} SameLatency(a: seq<TaskResult>, b: seq<TaskResult>)
    requires PassesMore(a, b)
    ensures TotalLatency(a) == TotalLatency(b)
    decreases |a|
  {
    if a != [] {
      assert b[|a| - 1].latency == a[|a| - 1].latency;
      SameLatency(a[..|a| - 1], b[..|a| - 1]);
    }
  }

  lemma SubsetIsSmaller(a: set<nat>, b: set<nat>)
    requires a <= b
    ensures |a| <= |b|
  {
    assert b == a + (b - a);
  }

  /** Passing more tasks, at the same latencies, never turns a pass into a failure. */
  lemma VerdictIsMonotone(a: seq<TaskResult>, b: seq<TaskResult>)
    requires PassesMore(a, b) && AllPassed(ThresholdsOf(TallyOf(a)))
    ensures AllPassed(ThresholdsOf(TallyOf(b)))
  {
    VerdictIff(a);
    VerdictIff(b);
    SameLatency(a, b);
    SubsetIsSmaller(Where(a, true), Where(b, true));
  }
}

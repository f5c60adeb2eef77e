/**
 Evaluation runs and their harvest: the rows of a run are resolved from what is observed of the
 platform, and the run is completed once every row is resolved or its time is over.
 */
module Harvest {
  import opened Common
  import opened Scoring
  import Domain

  // -------------------------------------------------------------- observations

  datatype Submission = PendingVerification | Validated | ValidationFailed | Invalid

  datatype ObservedExecution = ObservedExecution(
    id: string, versionId: string, status: Domain.ExecutionStatus, startedAt: Option<int>, submittedAt: Option<int>)

  datatype Snapshot = Snapshot(
    taskStatus: Domain.TaskStatus, execution: Option<ObservedExecution>, submission: Option<Submission>, cost: Option<int>)

  /** What observing a platform task returns: it is missing, the observation fails, or its state. */
  datatype Observation = Missing | Unavailable | Seen(snapshot: Snapshot)

  type Observer = string -> Observation

  // ---------------------------------------------------------------------- rows

  datatype Reason =
    | PublishFailed | TaskWasCancelled | TaskWasExpired | VersionMismatch | ByValidation | ByFailedValidation
    | ByExecution(status: Domain.ExecutionStatus) | RunTimeout

  datatype Resolution = Resolution(passed: bool, latency: Option<real>, cost: Option<int>, reason: Reason)

  datatype RunTask = RunTask(
    taskId: string, resolved: bool, passed: Option<bool>, latency: Option<real>, cost: Option<int>,
    publishError: Option<string>, reason: Option<Reason>, resolvedAt: Option<int>)

  function PlannedTask(): RunTask {
    RunTask("", false, None, None, None, None, None, None)
  }

  datatype Decision = Resolved(resolution: Resolution) | Pending | Failed

  function Fail(reason: Reason): Decision {
    Resolved(Resolution(false, None, None, reason))
  }

  /** Execution start to submission, in milliseconds. */
  function Latency(e: ObservedExecution): Option<real> {
    if e.startedAt.Some? && e.submittedAt.Some? then Some((e.submittedAt.value - e.startedAt.value) as real / 1000000.0)
    else None
  }

  function Decide(versionId: string, row: RunTask, observe: Observer): Decision {
    if row.publishError.Some? then Fail(PublishFailed)
    else if row.taskId == "" then Pending
    else
      match observe(row.taskId)
      case Missing => Pending
      case Unavailable => Failed
      case Seen(s) =>
        if s.taskStatus == Domain.TaskCancelled then Fail(TaskWasCancelled)
        else if s.taskStatus == Domain.TaskExpired then Fail(TaskWasExpired)
        else if s.execution.None? then Pending
        else
          var e := s.execution.value;
          if e.versionId != versionId then Fail(VersionMismatch)
          else if s.submission == Some(Validated) then
            Resolved(Resolution(true, Latency(e), Some(if s.cost.Some? then s.cost.value else 0), ByValidation))
          else if s.submission == Some(ValidationFailed) || s.submission == Some(Invalid) then Fail(ByFailedValidation)
          else if s.submission == Some(PendingVerification) then Pending
          else if e.status in {Domain.Expired, Domain.Cancelled, Domain.Rejected} then Fail(ByExecution(e.status))
          else Pending
  }

  /** The evidence a pass needs: a validated submission by the evaluated version on a live task. */
  predicate IsEvidence(versionId: string, s: Snapshot) {
    && s.taskStatus != Domain.TaskCancelled && s.taskStatus != Domain.TaskExpired
    && s.execution.Some? && s.execution.value.versionId == versionId
    && s.submission == Some(Validated)
  }

  // ---------------------------------------------------------------------- runs

  datatype RunStatus = Running | Passed | NotPassed

  datatype RunResult = RunResult(taskRef: string, score: real, passed: bool)

  /** `plan` lists the task references in benchmark order; `security` is the frozen benchmark's flag of each. */
  datatype Run = Run(
    versionId: string, rule: string, startedAt: int, plan: seq<string>, security: map<string, bool>,
    tasks: map<string, RunTask>, status: RunStatus, thresholds: seq<Threshold>, summary: Summary,
    completedAt: Option<int>, results: seq<RunResult>)

  ghost predicate WellPlanned(r: Run) {
    && (forall i, j :: 0 <= i < j < |r.plan| ==> r.plan[i] != r.plan[j])
    && (forall k :: k in r.plan <==> k in r.tasks)
  }

  function HarvestRow(versionId: string, row: RunTask, observe: Observer, now: int): RunTask {
    if row.resolved then row
    else
      match Decide(versionId, row, observe)
      case Resolved(resolution) => ResolveRow(row, resolution, now)
      case _ => row
  }

  function ResolveRow(row: RunTask, r: Resolution, now: int): RunTask {
    row.(resolved := true, passed := Some(r.passed), latency := r.latency, cost := r.cost, reason := Some(r.reason),
         resolvedAt := Some(now))
  }

  function TimeOutRow(row: RunTask, now: int): RunTask {
    if row.resolved then row else ResolveRow(row, Resolution(false, None, None, RunTimeout), now)
  }

  predicate TimedOut(r: Run, timeout: int, now: int) {
    r.startedAt + timeout <= now
  }

  predicate ObservationFails(r: Run, observe: Observer) {
    exists k :: k in r.tasks && !r.tasks[k].resolved && Decide(r.versionId, r.tasks[k], observe).Failed?
  }

  function Harvested(r: Run, observe: Observer, now: int, timeout: int): map<string, RunTask> {
    map k | k in r.tasks ::
      var row := HarvestRow(r.versionId, r.tasks[k], observe, now);
      if TimedOut(r, timeout, now) then TimeOutRow(row, now) else row
  }

  predicate AllResolved(tasks: map<string, RunTask>) {
    forall k :: k in tasks ==> tasks[k].resolved
  }

  function ResultOf(r: Run, k: string): TaskResult
    requires k in r.tasks
  {
    var row := r.tasks[k];
    TaskResult(k, row.passed == Some(true), if row.latency.Some? then row.latency.value else 0.0,
               if row.cost.Some? then row.cost.value else 0, k in r.security && r.security[k])
  }

  function ResultsOf(r: Run): seq<TaskResult>
    requires forall k :: k in r.plan ==> k in r.tasks
  {
    seq(|r.plan|, i requires 0 <= i < |r.plan| => ResultOf(r, r.plan[i]))
  }

  function RowOf(t: TaskResult): RunResult {
    RunResult(t.taskRef, if t.passed then 1.0 else 0.0, t.passed)
  }

  function RowsOf(results: seq<TaskResult>): seq<RunResult> {
    seq(|results|, i requires 0 <= i < |results| => RowOf(results[i]))
  }

  function CompleteAt(r: Run, thresholds: seq<Threshold>, summary: Summary, now: int): Result<Run> {
    if r.status != Running then Err(StateConflict)
    else if thresholds == [] then Err(InvalidArgument)
    else Ok(r.(status := if AllPassed(thresholds) then Passed else NotPassed,
               thresholds := thresholds, summary := summary, completedAt := Some(now)))
  }

  function CompleteTx(r: Run, now: int): Result<Run>
    requires forall k :: k in r.plan ==> k in r.tasks
  {
    var results := ResultsOf(r);
    if r.rule != RULE_V1 then Err(InvalidArgument)
    else
      var done := CompleteAt(r, ThresholdsOf(TallyOf(results)), SummaryOf(TallyOf(results)), now);
      if done.Err? then done else Ok(done.value.(results := r.results + RowsOf(results)))
  }

  /** One harvest of a run; a run that is no longer running is left alone. */
  function HarvestTx(r: Run, observe: Observer, now: int, timeout: int): Result<Run>
    requires WellPlanned(r)
  {
    if r.status != Running then Ok(r)
    else if ObservationFails(r, observe) then Err(Internal)
    else
      var observed := r.(tasks := Harvested(r, observe, now, timeout));
      if AllResolved(observed.tasks) then CompleteTx(observed, now) else Ok(observed)
  }

  /** Backfill of the published task's id: not guarded on the row being unresolved. */
  function SetTaskId(r: Run, k: string, taskId: string): Result<Run> {
    if k !in r.tasks then Err(NotFound) else Ok(r.(tasks := r.tasks[k := r.tasks[k].(taskId := taskId)]))
  }

  /** Merges the error into the row's details, whether or not the row is resolved. */
  function RecordPublishFailure(r: Run, k: string, message: string): Result<Run> {
    if k !in r.tasks then Err(NotFound) else Ok(r.(tasks := r.tasks[k := r.tasks[k].(publishError := Some(message))]))
  }

  // ---------------------------------------------------------------- the worker

  /** The rows of one run and the worker's transactions over them. */
  class RunStore {
    var run: Run

    constructor (run: Run)
      ensures this.run == run
    {
      this.run := run;
    }

    /** The unresolved rows in benchmark order. */
    method ListUnresolved() returns (refs: seq<string>)
      requires WellPlanned(run)
      ensures forall k :: k in refs <==> k in run.tasks && !run.tasks[k].resolved
      ensures forall i, j :: 0 <= i < j < |refs| ==> refs[i] != refs[j]
    {
      refs := [];
      var i := 0;
      while i < |run.plan|
        invariant i <= |run.plan|
        invariant forall k :: k in refs <==> k in run.plan[..i] && !run.tasks[k].resolved
        invariant forall a, b :: 0 <= a < b < |refs| ==> refs[a] != refs[b]
      {
        var k := run.plan[i];
        assert k in run.plan && run.plan[..i + 1] == run.plan[..i] + [k];
        if !run.tasks[k].resolved {
          refs := refs + [k];
        }
        i := i + 1;
      }
      assert run.plan[..i] == run.plan;
    }

    /** Guarded: a resolved row is not resolved again. */
    method Resolve(k: string, resolution: Resolution, now: int) returns (r: Result<()>)
      modifies this`run
      ensures old(k !in run.tasks || run.tasks[k].resolved) ==> r == Err(StateConflict) && run == old(run)
      ensures old(k in run.tasks && !run.tasks[k].resolved) ==>
                r.Ok? && run == old(run.(tasks := run.tasks[k := ResolveRow(run.tasks[k], resolution, now)]))
    {
      if k !in run.tasks || run.tasks[k].resolved {
        return Err(StateConflict);
      }
      run := run.(tasks := run.tasks[k := ResolveRow(run.tasks[k], resolution, now)]);
      return Ok(());
    }

    /** The first loop: every unresolved row is observed and, when its outcome is final, resolved. */
    method ResolveObserved(observe: Observer, now: int) returns (r: Result<()>)
      requires WellPlanned(run)
      modifies this`run
      ensures if ObservationFails(old(run), observe) then r == Err(Internal) else r.Ok?
      ensures r.Ok? ==> run.tasks.Keys == old(run).tasks.Keys && run == old(run).(tasks := run.tasks)
      ensures r.Ok? ==> forall k :: k in run.tasks ==> run.tasks[k] == HarvestRow(run.versionId, old(run).tasks[k], observe, now)
    {
      var unresolved := ListUnresolved();
      ghost var was := run;
      var i := 0;
      while i < |unresolved|
        invariant i <= |unresolved|
        invariant run.tasks.Keys == was.tasks.Keys && run == was.(tasks := run.tasks)
        invariant forall j :: 0 <= j < i ==> !Decide(was.versionId, was.tasks[unresolved[j]], observe).Failed?
        invariant forall k :: k in run.tasks ==>
                    run.tasks[k] == if k in unresolved[..i] then HarvestRow(was.versionId, was.tasks[k], observe, now) else was.tasks[k]
      {
        var k := unresolved[i];
        assert k in unresolved && k !in unresolved[..i];
        assert unresolved[..i + 1] == unresolved[..i] + [k];
        var decision := Decide(run.versionId, run.tasks[k], observe);
        if decision.Failed? {
          assert !was.tasks[k].resolved;
          return Err(Internal);
        }
        if decision.Resolved? {
          var done := Resolve(k, decision.resolution, now);
          assert done.Ok? && run.tasks[k] == HarvestRow(was.versionId, was.tasks[k], observe, now);
        }
        i := i + 1;
      }
      assert unresolved[..i] == unresolved;
      forall k | k in was.tasks && !was.tasks[k].resolved ensures !Decide(was.versionId, was.tasks[k], observe).Failed? {
        assert k in unresolved;
      }
      return Ok(());
    }

    /** The second loop: past the timeout, every outstanding row is failed. */
    method ResolveTimedOut(now: int)
      requires WellPlanned(run)
      modifies this`run
      ensures run.tasks.Keys == old(run).tasks.Keys && run == old(run).(tasks := run.tasks)
      ensures forall k :: k in run.tasks ==> run.tasks[k] == TimeOutRow(old(run).tasks[k], now)
    {
      var remaining := ListUnresolved();
      ghost var was := run;
      var i := 0;
      while i < |remaining|
        invariant i <= |remaining|
        invariant run.tasks.Keys == was.tasks.Keys && run == was.(tasks := run.tasks)
        invariant forall k :: k in run.tasks ==>
                    run.tasks[k] == if k in remaining[..i] then TimeOutRow(was.tasks[k], now) else was.tasks[k]
      {
        var k := remaining[i];
        assert k in remaining && k !in remaining[..i];
        assert remaining[..i + 1] == remaining[..i] + [k];
        var done := Resolve(k, Resolution(false, None, None, RunTimeout), now);
        assert done.Ok?;
        i := i + 1;
      }
      assert remaining[..i] == remaining;
    }

    /** The results to score, one for each row in benchmark order. */
    method CollectResults() returns (results: seq<TaskResult>)
      requires WellPlanned(run)
      ensures results == ResultsOf(run)
    {
      results := [];
      var i := 0;
      while i < |run.plan|
        invariant i == |results| <= |run.plan|
        invariant forall j :: 0 <= j < i ==> results[j] == ResultOf(run, run.plan[j])
      {
        assert run.plan[i] in run.plan;
        results := results + [ResultOf(run, run.plan[i])];
        i := i + 1;
      }
    }

    method CreateResults(results: seq<TaskResult>)
      modifies this`run
      ensures run == old(run).(results := old(run).results + RowsOf(results))
    {
      ghost var was := run;
      assert was.results + RowsOf(results[..0]) == was.results;
      var i := 0;
      while i < |results|
        invariant i <= |results| && run == was.(results := was.results + RowsOf(results[..i]))
      {
        assert was.results + RowsOf(results[..i + 1]) == was.results + RowsOf(results[..i]) + [RowOf(results[i])];
        run := run.(results := run.results + [RowOf(results[i])]);
        i := i + 1;
      }
      assert results[..i] == results;
    }

    /** `CompleteAt` on the loaded run, written back under the guard that it is still running. */
    method Complete(thresholds: seq<Threshold>, summary: Summary, now: int) returns (r: Result<()>)
      modifies this`run
      ensures (if r.Ok? then Ok(run) else Err(r.code)) == CompleteAt(old(run), thresholds, summary, now)
      ensures r.Err? ==> run == old(run)
    {
      if run.status != Running {
        return Err(StateConflict);
      }
      if |thresholds| == 0 {
        return Err(InvalidArgument);
      }
      var passed := IsAllPassed(thresholds);
      run := run.(thresholds := thresholds, summary := summary, status := if passed then Passed else NotPassed, completedAt := Some(now));
      return Ok(());
    }

    /** Scores the resolved rows and completes the run with one result row each. */
    method CompleteRun(now: int) returns (r: Result<()>)
      requires WellPlanned(run) && run.status == Running
      modifies this`run
      ensures (if r.Ok? then Ok(run) else Err(r.code)) == CompleteTx(old(run), now)
    {
      ghost var was := run;
      var results := CollectResults();
      var thresholds, summary := ApplyScoringRule(results, run.rule);
      r := Complete(thresholds, summary, now);
      if r.Ok? {
        CreateResults(results);
      }
    }

    /** Both resolving loops; `done` when no row is left unresolved. */
    method ResolveRows(observe: Observer, now: int, timeout: int) returns (r: Result<bool>)
      requires WellPlanned(run)
      modifies this`run
      ensures if ObservationFails(old(run), observe) then r == Err(Internal) else r.Ok?
      ensures r.Ok? ==> run == old(run).(tasks := Harvested(old(run), observe, now, timeout))
      ensures r.Ok? ==> (r.value <==> AllResolved(run.tasks))
    {
      ghost var was := run;
      var observed := ResolveObserved(observe, now);
      if observed.Err? {
        return Err(observed.code);
      }
      var remaining := ListUnresolved();
      if |remaining| > 0 && run.startedAt + timeout <= now {
        ResolveTimedOut(now);
        remaining := [];
      }
      assert |remaining| > 0 ==> remaining[0] in remaining;
      assert run.tasks == Harvested(was, observe, now, timeout);
      return Ok(|remaining| == 0);
    }

    /** One harvest transaction; an error rolls it back. */
    method HarvestRun(observe: Observer, now: int, timeout: int) returns (r: Result<()>)
      requires WellPlanned(run)
      modifies this`run
      ensures (if r.Ok? then Ok(run) else Err(r.code)) == HarvestTx(old(run), observe, now, timeout)
      ensures r.Err? ==> run == old(run)
    {
      if run.status != Running {
        return Ok(());
      }
      var was := run;
      var done := ResolveRows(observe, now, timeout);
      if done.Err? {
        run := was;
        return Err(done.code);
      }
      if !done.value {
        return Ok(());
      }
      r := CompleteRun(now);
      if r.Err? {
        run := was;
      }
    }
  }
}

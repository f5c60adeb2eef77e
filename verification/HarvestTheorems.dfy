/** What a harvest decides, when it completes a run, and what a passed run proves. */
module HarvestTheorems {
  import opened Common
  import opened Scoring
  import opened Harvest
  import Domain

  // ------------------------------------------------------------- one decision

  /** A row is resolved as passed exactly on evidence for it. */
  lemma PassedIff(versionId: string, row: RunTask, observe: Observer)
    ensures var d := Decide(versionId, row, observe);
            d.Resolved? && d.resolution.passed <==>
              && row.publishError.None? && row.taskId != ""
              && observe(row.taskId).Seen? && IsEvidence(versionId, observe(row.taskId).snapshot)
    ensures var d := Decide(versionId, row, observe);
            d.Resolved? ==> (d.resolution.passed <==> d.resolution.reason == ByValidation) && (d.resolution.latency.Some? ==> d.resolution.passed)
    ensures var d := Decide(versionId, row, observe);
            d.Resolved? && d.resolution.passed ==>
              var s := observe(row.taskId).snapshot;
              && (d.resolution.latency.Some? <==> s.execution.value.startedAt.Some? && s.execution.value.submittedAt.Some?)
              && (d.resolution.latency.Some? ==>
                    s.execution.value.startedAt.value as real + d.resolution.latency.value * 1000000.0
                    == s.execution.value.submittedAt.value as real)
              && d.resolution.cost.Some? && (s.cost.Some? ==> d.resolution.cost == s.cost) && (s.cost.None? ==> d.resolution.cost == Some(0))
  {
  }

  /** The observed state of a live task that decides nothing yet. */
  predicate StillOpen(versionId: string, s: Snapshot) {
    && s.taskStatus != Domain.TaskCancelled && s.taskStatus != Domain.TaskExpired
    && (s.execution.Some? ==>
          && s.execution.value.versionId == versionId
          && (s.submission.Some? ==> s.submission.value == PendingVerification)
          && (s.submission.None? ==> s.execution.value.status !in {Domain.Expired, Domain.Cancelled, Domain.Rejected}))
  }

  /** A row waits exactly while its task id is unknown, its task is missing, or the observed state is still open. */
  lemma PendingIff(versionId: string, row: RunTask, observe: Observer)
    ensures Decide(versionId, row, observe).Pending? <==>
              && row.publishError.None?
              && (|| row.taskId == ""
                  || observe(row.taskId).Missing?
                  || (observe(row.taskId).Seen? && StillOpen(versionId, observe(row.taskId).snapshot)))
  {
  }

  // ----------------------------------------------------------- one completion

  /** The outcome of a harvest of a running run that fails nowhere: it completes exactly when no row is left open. */
  lemma CompletesIff(r: Run, observe: Observer, now: int, timeout: int)
    requires WellPlanned(r) && r.status == Running && r.rule == RULE_V1 && !ObservationFails(r, observe)
    ensures HarvestTx(r, observe, now, timeout).Ok?
    ensures HarvestTx(r, observe, now, timeout).value.status != Running <==>
              || TimedOut(r, timeout, now)
              || forall k :: k in r.tasks && !r.tasks[k].resolved ==> Decide(r.versionId, r.tasks[k], observe).Resolved?
  {
    var tasks := Harvested(r, observe, now, timeout);
    if TimedOut(r, timeout, now) {
      assert AllResolved(tasks);
    } else {
      assert AllResolved(tasks) <==> forall k :: k in r.tasks ==> tasks[k].resolved;
    }
  }

  /** Progress: at or after the timeout every harvest without an error completes the run, whatever the platform shows. */
  lemma TimeoutCompletes(r: Run, observe: Observer, now: int, timeout: int)
    requires WellPlanned(r) && r.status == Running && r.rule == RULE_V1 && r.startedAt + timeout <= now
    ensures HarvestTx(r, observe, now, timeout).Ok? <==> !ObservationFails(r, observe)
    ensures HarvestTx(r, observe, now, timeout).Ok? ==> HarvestTx(r, observe, now, timeout).value.status != Running
  {
    if !ObservationFails(r, observe) {
      CompletesIff(r, observe, now, timeout);
    }
  }

  /** One result row for each row of the plan, in plan order. */
  ghost predicate ResultsCoverPlan(done: Run) {
    && |done.results| == |done.plan|
    && forall i :: 0 <= i < |done.plan| ==> ResultMatches(done, i)
  }

  predicate ResultMatches(done: Run, i: nat)
    requires i < |done.plan| == |done.results|
  {
    && done.plan[i] in done.tasks
    && done.results[i].taskRef == done.plan[i]
    && (done.results[i].passed <==> done.tasks[done.plan[i]].passed == Some(true))
    && done.results[i].score == if done.results[i].passed then 1.0 else 0.0
  }

  lemma CompleteTxIsWhole(r: Run, now: int)
    requires WellPlanned(r) && r.results == [] && CompleteTx(r, now).Ok?
    ensures var done := CompleteTx(r, now).value;
            && done.plan == r.plan && done.tasks == r.tasks && done.security == r.security && done.completedAt == Some(now)
            && ResultsCoverPlan(done) && (done.status == Passed <==> AllPassed(ThresholdsOf(TallyOf(ResultsOf(r)))))
  {
    var done := CompleteTx(r, now).value;
    assert done.results == RowsOf(ResultsOf(r));
    forall i | 0 <= i < |done.plan| ensures ResultMatches(done, i) {
      assert r.plan[i] in r.plan;
      assert done.results[i] == RowOf(ResultOf(r, r.plan[i]));
    }
  }

  lemma HarvestCompletes(r: Run, observe: Observer, now: int, timeout: int)
    requires WellPlanned(r) && r.status == Running
    requires HarvestTx(r, observe, now, timeout).Ok? && HarvestTx(r, observe, now, timeout).value.status != Running
    ensures var observed := r.(tasks := Harvested(r, observe, now, timeout));
            AllResolved(observed.tasks) && WellPlanned(observed) && HarvestTx(r, observe, now, timeout) == CompleteTx(observed, now)
  {
  }

  /** The record of a completed harvest: every row resolved, one result row for each, and the verdict. */
  lemma CompletionIsWhole(r: Run, observe: Observer, now: int, timeout: int)
    requires WellPlanned(r) && r.status == Running && r.results == []
    requires HarvestTx(r, observe, now, timeout).Ok? && HarvestTx(r, observe, now, timeout).value.status != Running
    ensures var done := HarvestTx(r, observe, now, timeout).value;
            && WellPlanned(done) && done.plan == r.plan && AllResolved(done.tasks) && ResultsCoverPlan(done)
            && done.completedAt == Some(now) && (done.status == Passed <==> Passes(ResultsOf(done)))
  {
    HarvestCompletes(r, observe, now, timeout);
    var observed := r.(tasks := Harvested(r, observe, now, timeout));
    CompleteTxIsWhole(observed, now);
    VerdictIff(ResultsOf(observed));
    assert ResultsOf(CompleteTx(observed, now).value) == ResultsOf(observed);
  }

  // ----------------------------------------------------------------- whole runs

  datatype RunStep =
    | HarvestStep(observe: Observer, now: int, timeout: int)
    | TaskIdStep(k: string, taskId: string)
    | PublishFailureStep(k: string, message: string)
    | CompleteStep(thresholds: seq<Threshold>, summary: Summary, now: int)

  function Attempt(r: Run, step: RunStep): Result<Run>
    requires WellPlanned(r)
  {
    match step
    case HarvestStep(observe, now, timeout) => HarvestTx(r, observe, now, timeout)
    case TaskIdStep(k, taskId) => SetTaskId(r, k, taskId)
    case PublishFailureStep(k, message) => RecordPublishFailure(r, k, message)
    case CompleteStep(thresholds, summary, now) => CompleteAt(r, thresholds, summary, now)
  }

  /** A failed transaction changes nothing. */
  function Next(r: Run, step: RunStep): Run
    requires WellPlanned(r)
  {
    if Attempt(r, step).Ok? then Attempt(r, step).value else r
  }

  predicate SamePlan(r: Run, after: Run) {
    && after.plan == r.plan && after.versionId == r.versionId && after.security == r.security
    && after.startedAt == r.startedAt && after.rule == r.rule && after.tasks.Keys == r.tasks.Keys
  }

  lemma CompleteKeepsPlan(r: Run, now: int)
    requires (forall k :: k in r.plan ==> k in r.tasks) && CompleteTx(r, now).Ok?
    ensures SamePlan(r, CompleteTx(r, now).value) && CompleteTx(r, now).value.tasks == r.tasks
  {
  }

  lemma HarvestKeepsPlan(r: Run, observe: Observer, now: int, timeout: int)
    requires WellPlanned(r) && HarvestTx(r, observe, now, timeout).Ok?
    ensures SamePlan(r, HarvestTx(r, observe, now, timeout).value)
  {
    var observed := r.(tasks := Harvested(r, observe, now, timeout));
    assert observed.tasks.Keys == r.tasks.Keys;
    if r.status == Running && AllResolved(observed.tasks) {
      CompleteKeepsPlan(observed, now);
    }
  }

  lemma NextKeepsPlan(r: Run, step: RunStep)
    requires WellPlanned(r)
    ensures SamePlan(r, Next(r, step)) && WellPlanned(Next(r, step))
  {
    if Attempt(r, step).Ok? && step.HarvestStep? {
      HarvestKeepsPlan(r, step.observe, step.now, step.timeout);
    }
  }

  function Outcome(row: RunTask): (Option<bool>, Option<real>, Option<int>, Option<Reason>, Option<int>) {
    (row.passed, row.latency, row.cost, row.reason, row.resolvedAt)
  }

  /** Finality of one step: the outcome of a resolved row and everything of a completed run stay. */
  lemma NextIsFinal(r: Run, step: RunStep, k: string)
    requires WellPlanned(r)
    ensures k in r.tasks && r.tasks[k].resolved ==>
              k in Next(r, step).tasks && Next(r, step).tasks[k].resolved && Outcome(Next(r, step).tasks[k]) == Outcome(r.tasks[k])
    ensures r.status != Running ==>
              && Next(r, step).status == r.status && Next(r, step).results == r.results && Next(r, step).thresholds == r.thresholds
              && Next(r, step).summary == r.summary && Next(r, step).completedAt == r.completedAt
  {
  }

  ghost predicate StepAt(runs: seq<Run>, steps: seq<RunStep>, i: nat)
    requires i < |steps| && |runs| == |steps| + 1
  {
    WellPlanned(runs[i]) && runs[i + 1] == Next(runs[i], steps[i])
  }

  /** The history of one run from its start, with every row still only planned. */
  ghost predicate IsHistory(runs: seq<Run>, steps: seq<RunStep>) {
    && |runs| == |steps| + 1
    && WellPlanned(runs[0]) && runs[0].status == Running && runs[0].results == []
    && (forall k :: k in runs[0].tasks ==> runs[0].tasks[k] == PlannedTask())
    && forall i :: 0 <= i < |steps| ==> StepAt(runs, steps, i)
  }

  lemma {:induction false} PlanIsFrozen(runs: seq<Run>, steps: seq<RunStep>, n: nat)
    requires IsHistory(runs, steps) && n < |runs|
    ensures WellPlanned(runs[n]) && SamePlan(runs[0], runs[n])
  {
    if n > 0 {
      PlanIsFrozen(runs, steps, n - 1);
      assert StepAt(runs, steps, n - 1);
      NextKeepsPlan(runs[n - 1], steps[n - 1]);
    }
  }

  /** Over any history the outcome of a resolved row never changes. */
  lemma {:induction false} ResolvedIsFinal(runs: seq<Run>, steps: seq<RunStep>, m: nat, n: nat, k: string)
    requires IsHistory(runs, steps) && m <= n < |runs| && k in runs[m].tasks && runs[m].tasks[k].resolved
    ensures k in runs[n].tasks && runs[n].tasks[k].resolved && Outcome(runs[n].tasks[k]) == Outcome(runs[m].tasks[k])
    decreases n
  {
    if m < n {
      ResolvedIsFinal(runs, steps, m, n - 1, k);
      assert StepAt(runs, steps, n - 1);
      NextIsFinal(runs[n - 1], steps[n - 1], k);
    }
  }

  /** A run is completed at most once: its verdict and results never change again. */
  lemma {:induction false} CompletedOnce(runs: seq<Run>, steps: seq<RunStep>, m: nat, n: nat)
    requires IsHistory(runs, steps) && m <= n < |runs| && runs[m].status != Running
    ensures runs[n].status == runs[m].status && runs[n].results == runs[m].results && runs[n].thresholds == runs[m].thresholds
    ensures runs[n].summary == runs[m].summary && runs[n].completedAt == runs[m].completedAt
    decreases n
  {
    if m < n {
      CompletedOnce(runs, steps, m, n - 1);
      assert StepAt(runs, steps, n - 1);
      NextIsFinal(runs[n - 1], steps[n - 1], "");
    }
  }

  /** Until then it has no results, so a harvest that completes it leaves exactly one for each row. */
  lemma {:induction false} NoResultsWhileRunning(runs: seq<Run>, steps: seq<RunStep>, n: nat)
    requires IsHistory(runs, steps) && n < |runs| && runs[n].status == Running
    ensures runs[n].results == []
  {
    if n > 0 {
      assert StepAt(runs, steps, n - 1);
      NextIsFinal(runs[n - 1], steps[n - 1], "");
      NoResultsWhileRunning(runs, steps, n - 1);
    }
  }

  /** The harvest at step `j` saw, for row `k` as it then was, a validated submission of the evaluated version. */
  ghost predicate SawEvidence(runs: seq<Run>, steps: seq<RunStep>, j: nat, k: string)
    requires j < |steps| && |runs| == |steps| + 1
  {
    && steps[j].HarvestStep?
    && k in runs[j].tasks && runs[j].tasks[k].publishError.None? && runs[j].tasks[k].taskId != ""
    && steps[j].observe(runs[j].tasks[k].taskId).Seen?
    && IsEvidence(runs[0].versionId, steps[j].observe(runs[j].tasks[k].taskId).snapshot)
  }

  lemma RowPassesNow(r: Run, step: RunStep, k: string)
    requires WellPlanned(r) && k in r.tasks && r.tasks[k].passed != Some(true) && Next(r, step).tasks[k].passed == Some(true)
    ensures step.HarvestStep? && !r.tasks[k].resolved
    ensures var d := Decide(r.versionId, r.tasks[k], step.observe); d.Resolved? && d.resolution.passed
  {
  }

  /** Every row that passed did so in one harvest that saw the evidence. */
  lemma {:induction false} PassedRowHasEvidence(runs: seq<Run>, steps: seq<RunStep>, n: nat, k: string) returns (j: nat)
    requires IsHistory(runs, steps) && n < |runs| && k in runs[n].tasks && runs[n].tasks[k].passed == Some(true)
    ensures j < n && SawEvidence(runs, steps, j, k)
  {
    PlanIsFrozen(runs, steps, n);
    assert n > 0;
    PlanIsFrozen(runs, steps, n - 1);
    assert StepAt(runs, steps, n - 1);
    if runs[n - 1].tasks[k].passed == Some(true) {
      j := PassedRowHasEvidence(runs, steps, n - 1, k);
    } else {
      j := n - 1;
      RowPassesNow(runs[j], steps[j], k);
      PassedIff(runs[j].versionId, runs[j].tasks[k], steps[j].observe);
    }
  }

  predicate RowPassed(r: Run, k: string) {
    k in r.tasks && r.tasks[k].passed == Some(true)
  }

  ghost predicate HasEvidence(runs: seq<Run>, steps: seq<RunStep>, n: nat, k: string)
    requires n < |steps| && |runs| == |steps| + 1
  {
    exists j: nat :: j <= n && SawEvidence(runs, steps, j, k)
  }

  lemma PassedRowsHaveEvidence(runs: seq<Run>, steps: seq<RunStep>, n: nat)
    requires IsHistory(runs, steps) && n < |steps|
    ensures forall k :: RowPassed(runs[n + 1], k) ==> HasEvidence(runs, steps, n, k)
  {
    forall k | RowPassed(runs[n + 1], k) ensures HasEvidence(runs, steps, n, k) {
      var j := PassedRowHasEvidence(runs, steps, n + 1, k);
    }
  }

  /**
   A harvested pass is sound: at least one task, four in five of them passed, every security task
   passed and the mean latency at most a second, each passed row on evidence that a harvest saw.
   */
  lemma HarvestedPassIsSound(runs: seq<Run>, steps: seq<RunStep>, n: nat)
    requires IsHistory(runs, steps) && n < |steps| && steps[n].HarvestStep?
    requires runs[n].status == Running && runs[n + 1].status == Passed
    ensures WellPlanned(runs[n + 1]) && Passes(ResultsOf(runs[n + 1])) && AllResolved(runs[n + 1].tasks)
    ensures ResultsCoverPlan(runs[n + 1]) && |runs[n + 1].plan| >= 1
    ensures forall k :: RowPassed(runs[n + 1], k) ==> HasEvidence(runs, steps, n, k)
  {
    PassedRowsHaveEvidence(runs, steps, n);
    NoResultsWhileRunning(runs, steps, n);
    StepCompletes(runs, steps, n);
  }

  lemma StepCompletes(runs: seq<Run>, steps: seq<RunStep>, n: nat)
    requires IsHistory(runs, steps) && n < |steps| && steps[n].HarvestStep? && runs[n].results == []
    requires runs[n].status == Running && runs[n + 1].status == Passed
    ensures WellPlanned(runs[n + 1]) && Passes(ResultsOf(runs[n + 1])) && AllResolved(runs[n + 1].tasks)
    ensures ResultsCoverPlan(runs[n + 1]) && |runs[n + 1].plan| >= 1
  {
    assert StepAt(runs, steps, n);
    CompletionIsWhole(runs[n], steps[n].observe, steps[n].now, steps[n].timeout);
    assert |ResultsOf(runs[n + 1])| == |runs[n + 1].plan|;
  }

  // ------------------------------------------------------- rewriting a resolved row

  /** The two unguarded writes: a different task id is backfilled, or a different publication error recorded. */
  predicate Rewrites(row: RunTask, step: RunStep, k: string) {
    || (step.TaskIdStep? && step.k == k && step.taskId != row.taskId)
    || (step.PublishFailureStep? && step.k == k && Some(step.message) != row.publishError)
  }

  /** A step changes a resolved row if and only if it is one of these writes, and its outcome never. */
  lemma ResolvedRowChangesIff(r: Run, step: RunStep, k: string)
    requires WellPlanned(r) && k in r.tasks && r.tasks[k].resolved
    ensures k in Next(r, step).tasks
    ensures Next(r, step).tasks[k] != r.tasks[k] <==> Rewrites(r.tasks[k], step, k)
    ensures Outcome(Next(r, step).tasks[k]) == Outcome(r.tasks[k])
  {
    NextKeepsPlan(r, step);
  }

  ghost predicate Stays(runs: seq<Run>, m: nat, n: nat, k: string)
    requires m <= n < |runs|
  {
    forall i :: m <= i <= n ==> RowStays(runs, m, i, k)
  }

  predicate RowStays(runs: seq<Run>, m: nat, i: nat, k: string)
    requires m <= i < |runs|
  {
    k in runs[m].tasks && k in runs[i].tasks && runs[i].tasks[k] == runs[m].tasks[k]
  }

  ghost predicate NeverRewritten(row: RunTask, steps: seq<RunStep>, m: nat, n: nat, k: string)
    requires m <= n <= |steps|
  {
    forall i :: m <= i < n ==> !Rewrites(row, steps[i], k)
  }

  /** Over any history, a resolved row is left as it is throughout if and only if no step is one of these writes. */
  lemma {:induction false} ResolvedRowStaysIff(runs: seq<Run>, steps: seq<RunStep>, m: nat, n: nat, k: string)
    requires IsHistory(runs, steps) && m <= n < |runs| && k in runs[m].tasks && runs[m].tasks[k].resolved
    ensures Stays(runs, m, n, k) <==> NeverRewritten(runs[m].tasks[k], steps, m, n, k)
    decreases n
  {
    if m < n {
      ResolvedRowStaysIff(runs, steps, m, n - 1, k);
      assert Stays(runs, m, n, k) ==> Stays(runs, m, n - 1, k);
      if Stays(runs, m, n - 1, k) {
        StaysOn(runs, steps, m, n, k);
      }
    }
  }

  lemma StaysOn(runs: seq<Run>, steps: seq<RunStep>, m: nat, n: nat, k: string)
    requires IsHistory(runs, steps) && m < n < |runs| && k in runs[m].tasks && runs[m].tasks[k].resolved
    requires RowStays(runs, m, n - 1, k)
    ensures RowStays(runs, m, n, k) <==> !Rewrites(runs[m].tasks[k], steps[n - 1], k)
  {
    assert StepAt(runs, steps, n - 1);
    ResolvedRowChangesIff(runs[n - 1], steps[n - 1], k);
  }

  /** At the timeout a row that could not be decided is failed by the harvest that completes the run. */
  lemma TimedOutRow(r: Run, observe: Observer, now: int, timeout: int, k: string)
    requires WellPlanned(r) && r.status == Running && r.rule == RULE_V1 && TimedOut(r, timeout, now) && !ObservationFails(r, observe)
    requires k in r.tasks && !r.tasks[k].resolved && Decide(r.versionId, r.tasks[k], observe).Pending?
    ensures var after := Next(r, HarvestStep(observe, now, timeout));
            after.status != Running && k in after.tasks && after.tasks[k] == TimeOutRow(r.tasks[k], now)
  {
    TimeoutCompletes(r, observe, now, timeout);
    HarvestCompletes(r, observe, now, timeout);
    CompleteKeepsPlan(r.(tasks := Harvested(r, observe, now, timeout)), now);
  }

  ghost predicate IsStart(r: Run) {
    WellPlanned(r) && r.status == Running && r.results == [] && forall k :: k in r.tasks ==> r.tasks[k] == PlannedTask()
  }

  /**
   Both writes reach resolved rows: in a run whose tasks stay unpublished until its timeout, a task id
   or an error that comes back after the harvest changes the resolved row it was published for.
   */
  lemma LateWritesReachResolved(r: Run, observe: Observer, now: int, timeout: int, k: string, write: RunStep) returns (runs: seq<Run>)
    requires IsStart(r) && r.rule == RULE_V1 && k in r.tasks && TimedOut(r, timeout, now)
    requires Rewrites(PlannedTask(), write, k)
    ensures IsHistory(runs, [HarvestStep(observe, now, timeout), write]) && |runs| == 3 && runs[0] == r
    ensures k in runs[1].tasks && k in runs[2].tasks && runs[1].status != Running
    ensures runs[1].tasks[k] == TimeOutRow(PlannedTask(), now) && runs[1].tasks[k].resolved
    ensures runs[2].tasks[k] != runs[1].tasks[k] && Outcome(runs[2].tasks[k]) == Outcome(runs[1].tasks[k])
  {
    var steps := [HarvestStep(observe, now, timeout), write];
    TimedOutRow(r, observe, now, timeout, k);
    var r1 := Next(r, steps[0]);
    NextKeepsPlan(r, steps[0]);
    var r2 := Next(r1, steps[1]);
    runs := [r, r1, r2];
    assert StepAt(runs, steps, 0) && StepAt(runs, steps, 1);
    ResolvedRowChangesIff(r1, write, k);
  }

  /** There are such histories, one for each write: a run of one task that is never observed. */
  lemma LateWritesExample(write: RunStep) returns (runs: seq<Run>, steps: seq<RunStep>)
    requires write == TaskIdStep("a", "task") || write == PublishFailureStep("a", "boom")
    ensures IsHistory(runs, steps) && |runs| == 3 && steps[1] == write
    ensures forall i :: 0 <= i < 3 ==> "a" in runs[i].tasks
    ensures runs[1].tasks["a"].resolved && runs[2].tasks["a"] != runs[1].tasks["a"]
  {
    var run := Run("v", RULE_V1, 0, ["a"], map[], map["a" := PlannedTask()], Running, [], Summary(0.0, 0.0, 0, false), None, []);
    var observe := (id: string) => Missing;
    assert IsStart(run);
    runs := LateWritesReachResolved(run, observe, 10, 10, "a", write);
    steps := [HarvestStep(observe, 10, 10), write];
  }
}

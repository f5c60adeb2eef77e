/**
 From a usable version back to the evidence: over any run of the whole system, which passed runs meet
 the gates on rows whose evidence a harvest saw, and which versions became eligible without.
 */
module VersionsEvidence {
  import opened Common
  import opened Scoring
  import opened Harvest
  import opened HarvestTheorems
  import opened Versions
  import opened VersionsInvariant
  import V = VersionsRuns

  /** Run `r` is never completed from outside and was not answered by another executor. */
  predicate PlatformOnly(op: V.Op, r: Id) {
    && !(op.CompleteRun? && op.runId == r)
    && !(op.StartRun? && op.runId == r && op.executor.Synchronous?)
  }

  /** The harvest at step `j` saw a validated submission by version `v` for row `k` as it then was. */
  ghost predicate Saw(states: seq<DB>, steps: seq<V.Step>, j: nat, r: Id, v: Id, k: string)
    requires j < |steps| && |states| == |steps| + 1
  {
    var op := steps[j].op;
    && op.HarvestRun? && op.runId == r && r in states[j].runs && k in states[j].runs[r].tasks
    && var row := states[j].runs[r].tasks[k];
       && row.publishError.None? && row.taskId != ""
       && op.observe(row.taskId).Seen? && IsEvidence(v, op.observe(row.taskId).snapshot)
  }

  // --------------------------------------------------------- one commit, one run

  /** What a commit may do to an existing run: the step of its own history, or nothing. */
  ghost predicate IsRunStep(op: V.Op, r: Id, before: Run, after: Run)
    requires WellPlanned(before)
  {
    || after == before
    || (op.HarvestRun? && op.runId == r && before.status == Running
        && HarvestTx(before, op.observe, op.now, op.timeout) == Ok(after))
    || (op.BackfillTask? && op.runId == r && SetTaskId(before, op.k, op.taskId) == Ok(after))
    || (op.FailPublish? && op.runId == r && RecordPublishFailure(before, op.k, op.message) == Ok(after))
    || (op.CompleteRun? && op.runId == r && CompleteAt(before, op.thresholds, op.summary, op.now) == Ok(after))
  }

  lemma HarvestIsRunStep(db: DB, seen: DB, runId: Id, observe: Observer, now: int, timeout: int, r: Id)
    requires runId in db.runs ==> WellPlanned(db.runs[runId])
    requires HarvestRunTx(db, seen, runId, observe, now, timeout).Ok? && r in db.runs && WellPlanned(db.runs[r])
    ensures var after := HarvestRunTx(db, seen, runId, observe, now, timeout).value;
            r in after.runs && IsRunStep(V.HarvestRun(runId, observe, now, timeout), r, db.runs[r], after.runs[r])
  {
  }

  /** A new run: planned rows on the platform, no row and a verdict from another executor. */
  ghost predicate IsNewRun(run: Run) {
    && WellPlanned(run)
    && (forall k :: k in run.tasks ==> run.tasks[k] == PlannedTask())
    && (run.status == Running || run.plan == [])
  }

  /** Another executor answered the run: its answers are recorded, and it passed exactly if they meet the gates. */
  ghost predicate AnsweredOnGates(op: V.Op, r: Id, run: Run) {
    && op.StartRun? && op.runId == r && op.executor.Synchronous? && op.executor.results.Ok?
    && run.status != Running && run.results == RowsOf(op.executor.results.value)
    && (run.status == Passed <==> Passes(op.executor.results.value))
  }

  lemma StartLeavesRun(
    db: DB, seen: DB, agentId: Id, versionId: Id, runId: Id, rule: string, now: int,
    plan: seq<string>, security: map<string, bool>, executor: Executor, r: Id)
    requires StartRunTx(db, seen, agentId, versionId, runId, rule, now, plan, security, executor).Ok?
    ensures var after := StartRunTx(db, seen, agentId, versionId, runId, rule, now, plan, security, executor).value;
            && (r in db.runs ==> r in after.runs && after.runs[r] == db.runs[r])
            && (r !in db.runs && r in after.runs ==> r == runId && IsNewRun(after.runs[r]))
            && (r == runId && executor.Platform? ==> r in after.runs && after.runs[r].status == Running)
            && (r == runId && executor.Synchronous? ==>
                  r in after.runs && AnsweredOnGates(V.StartRun(agentId, versionId, runId, rule, now, plan, security, executor), r, after.runs[r]))
  {
    if executor.Synchronous? {
      VerdictIff(executor.results.value);
    }
  }

  lemma CommitIsRunStep(op: V.Op, seen: DB, expecting: DB, db: DB, r: Id)
    requires V.RunsPlanned(db) && V.Commit(op, seen, expecting, db).Ok? && r in db.runs
    ensures var after := V.Commit(op, seen, expecting, db).value;
            r in after.runs && IsRunStep(op, r, db.runs[r], after.runs[r])
  {
    match op {
      case StartRun(agentId, versionId, runId, rule, now, plan, security, executor) =>
        StartLeavesRun(db, seen, agentId, versionId, runId, rule, now, plan, security, executor, r);
      case HarvestRun(runId, observe, now, timeout) => HarvestIsRunStep(db, seen, runId, observe, now, timeout, r);
      case _ =>
    }
  }

  lemma CommitStartsRun(op: V.Op, seen: DB, expecting: DB, db: DB, r: Id)
    requires V.RunsPlanned(db) && V.Commit(op, seen, expecting, db).Ok? && r !in db.runs
    requires r in V.Commit(op, seen, expecting, db).value.runs
    ensures IsNewRun(V.Commit(op, seen, expecting, db).value.runs[r])
    ensures PlatformOnly(op, r) ==> V.Commit(op, seen, expecting, db).value.runs[r].status == Running
    ensures !PlatformOnly(op, r) ==> AnsweredOnGates(op, r, V.Commit(op, seen, expecting, db).value.runs[r])
  {
    match op {
      case StartRun(agentId, versionId, runId, rule, now, plan, security, executor) =>
        StartLeavesRun(db, seen, agentId, versionId, runId, rule, now, plan, security, executor, r);
      case _ =>
    }
  }

  /** The same facts for a step of a run. */
  lemma StepOfRun(states: seq<DB>, steps: seq<V.Step>, i: nat, r: Id)
    requires V.IsRun(states, steps) && i < |steps| && r in states[i + 1].runs
    ensures r in states[i].runs ==> WellPlanned(states[i].runs[r]) && IsRunStep(steps[i].op, r, states[i].runs[r], states[i + 1].runs[r])
    ensures r !in states[i].runs ==> IsNewRun(states[i + 1].runs[r])
    ensures r !in states[i].runs && PlatformOnly(steps[i].op, r) ==> states[i + 1].runs[r].status == Running
    ensures r !in states[i].runs && !PlatformOnly(steps[i].op, r) ==> AnsweredOnGates(steps[i].op, r, states[i + 1].runs[r])
  {
    assert V.StepAt(states, steps, i);
    var s := steps[i];
    var seen, expecting := states[s.readAt], states[s.expectedAt];
    if V.Commit(s.op, seen, expecting, states[i]).Ok? {
      if r in states[i].runs {
        CommitIsRunStep(s.op, seen, expecting, states[i], r);
      } else {
        CommitStartsRun(s.op, seen, expecting, states[i], r);
      }
    }
  }

  // ------------------------------------------------------------------ evidence

  lemma PassesOnEvidence(op: V.Op, r: Id, before: Run, after: Run, k: string)
    requires WellPlanned(before) && IsRunStep(op, r, before, after)
    requires RowPassed(after, k) && !RowPassed(before, k)
    ensures op.HarvestRun? && op.runId == r && k in before.tasks && after.versionId == before.versionId
    ensures var row := before.tasks[k];
            && row.publishError.None? && row.taskId != ""
            && op.observe(row.taskId).Seen? && IsEvidence(before.versionId, op.observe(row.taskId).snapshot)
  {
    if op.HarvestRun? {
      var step := HarvestStep(op.observe, op.now, op.timeout);
      NextKeepsPlan(before, step);
      RowPassesNow(before, step, k);
      PassedIff(before.versionId, before.tasks[k], op.observe);
    }
  }

  lemma SameVersion(op: V.Op, r: Id, before: Run, after: Run)
    requires WellPlanned(before) && IsRunStep(op, r, before, after)
    ensures after.versionId == before.versionId
  {
    if op.HarvestRun? && after != before {
      HarvestKeepsPlan(before, op.observe, op.now, op.timeout);
    }
  }

  /** Every passed row of any run, however the run was completed, was passed by one harvest that saw its evidence. */
  lemma {:induction false} PassedRowWasSeen(states: seq<DB>, steps: seq<V.Step>, n: nat, r: Id, k: string) returns (j: nat)
    requires V.IsRun(states, steps) && n < |states| && r in states[n].runs && RowPassed(states[n].runs[r], k)
    ensures j < n && Saw(states, steps, j, r, states[n].runs[r].versionId, k)
  {
    assert n > 0;
    StepOfRun(states, steps, n - 1, r);
    if r in states[n - 1].runs && RowPassed(states[n - 1].runs[r], k) {
      j := PassedRowWasSeen(states, steps, n - 1, r, k);
      SameVersion(steps[n - 1].op, r, states[n - 1].runs[r], states[n].runs[r]);
    } else {
      j := n - 1;
      PassesOnEvidence(steps[j].op, r, states[j].runs[r], states[n].runs[r], k);
    }
  }

  // ---------------------------------------------------------------------- gates

  /** What the gates look at is not changed by a late backfill or publication error. */
  lemma SameResults(a: Run, b: Run)
    requires WellPlanned(a) && SamePlan(a, b)
    requires forall k :: k in a.tasks ==>
               b.tasks[k].passed == a.tasks[k].passed && b.tasks[k].latency == a.tasks[k].latency && b.tasks[k].cost == a.tasks[k].cost
    ensures WellPlanned(b) && ResultsOf(b) == ResultsOf(a)
  {
    assert forall k :: k in a.plan ==> k in a.tasks;
  }

  lemma HarvestPasses(before: Run, observe: Observer, now: int, timeout: int, after: Run)
    requires WellPlanned(before) && before.status == Running && after.status == Passed
    requires HarvestTx(before, observe, now, timeout) == Ok(after)
    ensures WellPlanned(after) && Passes(ResultsOf(after))
  {
    var observed := before.(tasks := Harvested(before, observe, now, timeout));
    HarvestKeepsPlan(before, observe, now, timeout);
    HarvestCompletes(before, observe, now, timeout);
    PassingCompletion(observed, now, after);
  }

  lemma PassingCompletion(observed: Run, now: int, after: Run)
    requires WellPlanned(observed) && CompleteTx(observed, now) == Ok(after) && after.status == Passed
    ensures WellPlanned(after) && Passes(ResultsOf(after))
  {
    VerdictIff(ResultsOf(observed));
    assert ResultsOf(after) == ResultsOf(observed);
  }

  /** The step completed the run on its gates: a harvest, or an outside completion of rows that already met them. */
  ghost predicate OnGates(op: V.Op, r: Id, before: Run)
    requires WellPlanned(before)
  {
    && before.status == Running
    && ((op.HarvestRun? && op.runId == r) || (op.CompleteRun? && op.runId == r && Passes(ResultsOf(before))))
  }

  lemma PassingStep(op: V.Op, r: Id, before: Run, after: Run)
    requires WellPlanned(before) && IsRunStep(op, r, before, after) && after.status == Passed
    ensures WellPlanned(after)
    ensures before.status != Running ==> before.status == Passed && ResultsOf(after) == ResultsOf(before)
    ensures before.status == Running ==> (Passes(ResultsOf(after)) <==> OnGates(op, r, before))
  {
    if op.HarvestRun? && after != before {
      HarvestPasses(before, op.observe, op.now, op.timeout, after);
    } else if after != before {
      SameResults(before, after);
    }
  }

  lemma FinishedStep(op: V.Op, r: Id, before: Run, after: Run)
    requires WellPlanned(before) && IsRunStep(op, r, before, after) && before.status != Running
    ensures after.status == before.status && after.results == before.results
  {
  }

  /** A run answered by another executor: in every later state its recorded results and its verdict are those of its answers. */
  lemma {:induction false} SynchronousRunMeetsGates(states: seq<DB>, steps: seq<V.Step>, j: nat, n: nat, r: Id)
    requires V.IsRun(states, steps) && j < n < |states|
    requires r !in states[j].runs && r in states[j + 1].runs && !PlatformOnly(steps[j].op, r)
    ensures r in states[n].runs && AnsweredOnGates(steps[j].op, r, states[n].runs[r])
    decreases n
  {
    if n == j + 1 {
      StepOfRun(states, steps, j, r);
    } else {
      SynchronousRunMeetsGates(states, steps, j, n - 1, r);
      RunStays(states, steps, n - 1, r);
      StepOfRun(states, steps, n - 1, r);
      FinishedStep(steps[n - 1].op, r, states[n - 1].runs[r], states[n].runs[r]);
    }
  }

  lemma RunStays(states: seq<DB>, steps: seq<V.Step>, i: nat, r: Id)
    requires V.IsRun(states, steps) && i < |steps| && r in states[i].runs
    ensures r in states[i + 1].runs
  {
    assert V.StepAt(states, steps, i);
    var s := steps[i];
    var seen, expecting := states[s.readAt], states[s.expectedAt];
    if V.Commit(s.op, seen, expecting, states[i]).Ok? {
      CommitIsRunStep(s.op, seen, expecting, states[i], r);
    }
  }

  /** Step `j` completed run `r`, and did so on its gates. */
  ghost predicate PassedOnGates(states: seq<DB>, steps: seq<V.Step>, j: nat, r: Id)
    requires j < |steps| && |states| == |steps| + 1
  {
    r in states[j].runs && WellPlanned(states[j].runs[r]) && OnGates(steps[j].op, r, states[j].runs[r])
  }

  /**
   Which passed runs meet the gates on their recorded rows: exactly those completed by a harvest, or
   from outside after their rows already met them. Step `j` is the one that completed the run. One that
   another executor answered has no planned rows; it passed because its recorded answers meet them.
   */
  lemma {:induction false} PassedRunMeetsGatesIff(states: seq<DB>, steps: seq<V.Step>, n: nat, r: Id) returns (j: nat)
    requires V.IsRun(states, steps) && n < |states| && r in states[n].runs && states[n].runs[r].status == Passed
    ensures j < n && r in states[j + 1].runs && states[j + 1].runs[r].status == Passed
    ensures r in states[j].runs ==> states[j].runs[r].status == Running
    ensures r !in states[j].runs ==> AnsweredOnGates(steps[j].op, r, states[n].runs[r])
    ensures WellPlanned(states[n].runs[r])
    ensures Passes(ResultsOf(states[n].runs[r])) <==> PassedOnGates(states, steps, j, r)
  {
    assert n > 0;
    j := n - 1;
    StepOfRun(states, steps, j, r);
    if r in states[j].runs {
      PassingStep(steps[j].op, r, states[j].runs[r], states[n].runs[r]);
      if states[j].runs[r].status != Running {
        j := PassedRunMeetsGatesIff(states, steps, j, r);
        FinishedStep(steps[n - 1].op, r, states[n - 1].runs[r], states[n].runs[r]);
      }
    }
  }

  /** A run that the platform alone evaluated meets the gates once it passed, ever after. */
  lemma PassedRunMeetsGates(states: seq<DB>, steps: seq<V.Step>, n: nat, r: Id)
    requires V.IsRun(states, steps) && n < |states| && r in states[n].runs && states[n].runs[r].status == Passed
    requires forall i :: 0 <= i < n ==> PlatformOnly(steps[i].op, r)
    ensures WellPlanned(states[n].runs[r]) && Passes(ResultsOf(states[n].runs[r]))
  {
    var j := PassedRunMeetsGatesIff(states, steps, n, r);
    StepOfRun(states, steps, j, r);
  }

  ghost predicate WasSeen(states: seq<DB>, steps: seq<V.Step>, n: nat, r: Id, v: Id, k: string)
    requires n < |states| == |steps| + 1
  {
    exists j: nat :: j < n && Saw(states, steps, j, r, v, k)
  }

  /**
   Evidence behind a version: in any state of any run, a version created as a draft that is eligible,
   active or retired has a passed run, each passed row of it was passed by a harvest that saw a
   validated submission by this version on a live task, and those rows meet the gates if and only if
   the step that completed the run was a harvest or found them met.
   */
  lemma UsableOnEvidenceIff(states: seq<DB>, steps: seq<V.Step>, n: nat, v: Id) returns (r: Id, j: nat)
    requires V.IsRun(states, steps) && n < |states| && v in states[n].versions
    requires !states[n].versions[v].registered && CanRollbackTo(states[n].versions[v].status)
    ensures r in states[n].runs && states[n].runs[r].versionId == v && states[n].runs[r].status == Passed
    ensures forall k :: RowPassed(states[n].runs[r], k) ==> WasSeen(states, steps, n, r, v, k)
    ensures WellPlanned(states[n].runs[r]) && j < n
    ensures Passes(ResultsOf(states[n].runs[r])) <==> PassedOnGates(states, steps, j, r)
    ensures r !in states[j].runs ==> AnsweredOnGates(steps[j].op, r, states[n].runs[r])
  {
    V.ReachableIsSafe(states, steps, n, v);
    r :| r in states[n].runs && states[n].runs[r].versionId == v && states[n].runs[r].status == Passed;
    j := PassedRunMeetsGatesIff(states, steps, n, r);
    forall k | RowPassed(states[n].runs[r], k) ensures WasSeen(states, steps, n, r, v, k) {
      var i := PassedRowWasSeen(states, steps, n, r, k);
    }
  }

  /** Evaluated by the platform alone, a usable version always has a run that meets the gates. */
  lemma UsableOnEvidence(states: seq<DB>, steps: seq<V.Step>, n: nat, v: Id) returns (r: Id)
    requires V.IsRun(states, steps) && n < |states| && v in states[n].versions
    requires !states[n].versions[v].registered && CanRollbackTo(states[n].versions[v].status)
    requires forall i, o :: 0 <= i < n && o in states[n].runs && states[n].runs[o].versionId == v ==> PlatformOnly(steps[i].op, o)
    ensures r in states[n].runs && states[n].runs[r].versionId == v && states[n].runs[r].status == Passed
    ensures WellPlanned(states[n].runs[r]) && Passes(ResultsOf(states[n].runs[r]))
    ensures forall k :: RowPassed(states[n].runs[r], k) ==> WasSeen(states, steps, n, r, v, k)
  {
    var j: nat;
    r, j := UsableOnEvidenceIff(states, steps, n, v);
    PassedRunMeetsGates(states, steps, n, r);
  }

  // -------------------------------------------------------- outside completion

  /**
   What an outside completion of a running run can do: it succeeds exactly for the version and its
   agent with some threshold, leaves every row as it was, and makes the version eligible exactly when
   all the thresholds it brought passed, whether or not the rows meet the gates.
   */
  lemma OutsideCompletionIff(
    db: DB, seen: DB, agentId: Id, versionId: Id, r: Id, thresholds: seq<Threshold>, summary: Summary, now: int)
    requires Inv(db) && r in db.runs && db.runs[r].status == Running
    requires r in seen.runs && seen.runs[r].status == Running && seen.runs[r].versionId == db.runs[r].versionId
    ensures db.runs[r].versionId in db.versions && WellPlanned(db.runs[r])
    ensures CompleteRunTx(db, seen, agentId, versionId, r, thresholds, summary, now).Ok? <==>
              thresholds != [] && versionId == db.runs[r].versionId && agentId == db.versions[versionId].agentId
    ensures CompleteRunTx(db, seen, agentId, versionId, r, thresholds, summary, now).Ok? ==>
              var after := CompleteRunTx(db, seen, agentId, versionId, r, thresholds, summary, now).value;
              && after.runs.Keys == db.runs.Keys && after.runs[r].tasks == db.runs[r].tasks && after.runs[r].plan == db.runs[r].plan
              && versionId in after.versions
              && after.versions[versionId].status == (if AllPassed(thresholds) then Eligible else Rejected)
              && (after.versions[versionId].status == Eligible && !Passes(ResultsOf(after.runs[r]))
                  <==> AllPassed(thresholds) && !Passes(ResultsOf(db.runs[r])))
  {
    assert RunOk(db, db.runs[r]);
    var done := CompleteRunTx(db, seen, agentId, versionId, r, thresholds, summary, now);
    if done.Ok? {
      assert done.value.runs[r].tasks == db.runs[r].tasks;
      SameResults(db.runs[r], done.value.runs[r]);
    }
  }

  /** A draft whose one task was never published, its run still running. */
  function Unpublished(): DB {
    DB(map["v0" := VersionRow("a", Active, true), "v" := VersionRow("a", Evaluating, false)], map["a" := Some("v0")],
       map["r" := NewRun("v", "", 0, ["x"], map[])])
  }

  /** One threshold of any name, passed. */
  function AnyThreshold(): seq<Threshold> {
    [Threshold("any", true)]
  }

  function NoSummary(): Summary {
    Summary(0.0, 0.0, 0, true)
  }

  lemma DraftCommits() returns (s1: DB, s2: DB)
    ensures V.RunsPlanned(s1) && V.RunsPlanned(s2)
    ensures RegisterTx(DB(map[], map[], map[]), "a", "v0") == Ok(s1) && CreateDraftTx(s1, "a", "v") == Ok(s2)
    ensures StartRunTx(s2, s2, "a", "v", "r", "", 0, ["x"], map[], Platform) == Ok(Unpublished())
  {
    s1 := DB(map["v0" := VersionRow("a", Active, true)], map["a" := Some("v0")], map[]);
    s2 := DB(map["v0" := VersionRow("a", Active, true), "v" := VersionRow("a", Draft, false)], map["a" := Some("v0")], map[]);
    assert s2.versions["v" := VersionRow("a", Evaluating, false)] == Unpublished().versions;
    assert Distinct(["x"]);
  }

  lemma CompletedUnpublished() returns (s4: DB)
    ensures V.RunsPlanned(Unpublished())
    ensures CompleteRunTx(Unpublished(), Unpublished(), "a", "v", "r", AnyThreshold(), NoSummary(), 1) == Ok(s4)
    ensures "v" in s4.versions && s4.versions["v"] == VersionRow("a", Eligible, false)
    ensures "r" in s4.runs && s4.runs["r"].versionId == "v" && s4.runs["r"].status == Passed
    ensures forall k :: !RowPassed(s4.runs["r"], k)
    ensures WellPlanned(s4.runs["r"]) && !Passes(ResultsOf(s4.runs["r"]))
  {
    var run := NewRun("v", "", 0, ["x"], map[]);
    s4 := CompleteRunTx(Unpublished(), Unpublished(), "a", "v", "r", AnyThreshold(), NoSummary(), 1).value;
    assert s4.runs["r"].tasks == run.tasks && "x" in run.tasks;
    NoneAreMet(s4.runs["r"]);
  }

  lemma NoneAreMet(run: Run)
    requires WellPlanned(run) && forall k :: !RowPassed(run, k)
    ensures !Passes(ResultsOf(run))
  {
    var results := ResultsOf(run);
    forall i | 0 <= i < |results| ensures !results[i].passed {
      assert !RowPassed(run, run.plan[i]);
    }
    assert Where(results, true) == {};
  }

  function StepNow(op: V.Op, i: nat): V.Step {
    V.Step(op, i, i, i, i)
  }

  function OutsideSteps(): seq<V.Step> {
    [StepNow(V.Register("a", "v0"), 0), StepNow(V.CreateDraft("a", "v"), 1),
     StepNow(V.StartRun("a", "v", "r", "", 0, ["x"], map[], Platform), 2),
     StepNow(V.CompleteRun("a", "v", "r", AnyThreshold(), NoSummary(), 1), 3)]
  }

  lemma ReachUnpublished() returns (states: seq<DB>)
    ensures V.IsRun(states, OutsideSteps()[..3]) && |states| == 4 && states[3] == Unpublished()
  {
    var s1, s2 := DraftCommits();
    states := [DB(map[], map[], map[]), s1, s2, Unpublished()];
    var steps := OutsideSteps()[..3];
    assert V.StepAt(states, steps, 0) && V.StepAt(states, steps, 1) && V.StepAt(states, steps, 2);
  }

  /** There is such a run of the system: it ends with an eligible version, no row of whose run has passed. */
  lemma EligibleWithoutEvidence() returns (states: seq<DB>)
    ensures V.IsRun(states, OutsideSteps()) && |states| == 5
    ensures "v" in states[4].versions && states[4].versions["v"] == VersionRow("a", Eligible, false)
    ensures "r" in states[4].runs && states[4].runs["r"].versionId == "v" && states[4].runs["r"].status == Passed
    ensures forall k :: !RowPassed(states[4].runs["r"], k)
    ensures WellPlanned(states[4].runs["r"]) && !Passes(ResultsOf(states[4].runs["r"]))
  {
    var first := ReachUnpublished();
    var s4 := CompletedUnpublished();
    states := first + [s4];
    var steps := OutsideSteps();
    forall i | 0 <= i < 3 ensures V.StepAt(states, steps, i) {
      assert V.StepAt(first, steps[..3], i);
    }
    assert V.StepAt(states, steps, 3);
  }
}

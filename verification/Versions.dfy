/**
 Agent versions, their evaluation runs and each agent's current version, and the transactions over
 the three tables. As elsewhere, rows read outside a transaction's locks are passed in as they were
 read (`seen`), separately from the tables the transaction commits against.
 */
module Versions {
  import opened Common
  import opened Scoring
  import opened Harvest

  type Id = string

  datatype VersionStatus = Draft | Evaluating | Eligible | Rejected | Active | Retired

  /** `registered` marks the first version of an agent, created active by its registration. */
  datatype VersionRow = VersionRow(agentId: Id, status: VersionStatus, registered: bool)

  /** `agents` maps each agent to its current version. */
  datatype DB = DB(versions: map<Id, VersionRow>, agents: map<Id, Option<Id>>, runs: map<Id, Run>)

  predicate CanRollbackTo(s: VersionStatus) {
    s == Active || s == Eligible || s == Retired
  }

  // ---------------------------------------------------------------- row writes

  /** The status a guarded transition starts from. */
  function CurrentStatusFor(to: VersionStatus): Option<VersionStatus> {
    match to
    case Evaluating => Some(Draft)
    case Eligible => Some(Evaluating)
    case Rejected => Some(Evaluating)
    case _ => None
  }

  function Transition(db: DB, agentId: Id, versionId: Id, to: VersionStatus): Result<DB> {
    if && versionId in db.versions && db.versions[versionId].agentId == agentId
       && Some(db.versions[versionId].status) == CurrentStatusFor(to)
    then Ok(db.(versions := db.versions[versionId := db.versions[versionId].(status := to)]))
    else Err(StateConflict)
  }

  /** Writes the status without looking at the stored one. */
  function UpdateStatus(db: DB, agentId: Id, versionId: Id, status: VersionStatus): Result<DB> {
    if versionId in db.versions && db.versions[versionId].agentId == agentId then
      Ok(db.(versions := db.versions[versionId := db.versions[versionId].(status := status)]))
    else Err(NotFound)
  }

  function PromoteAgentCurrentVersion(db: DB, agentId: Id, versionId: Id, expected: Option<Id>): Result<DB> {
    if agentId in db.agents && db.agents[agentId] == expected then Ok(db.(agents := db.agents[agentId := Some(versionId)]))
    else Err(StateConflict)
  }

  function Verdict(db: DB, agentId: Id, run: Run): Result<DB> {
    Transition(db, agentId, run.versionId, if run.status == Passed then Eligible else Rejected)
  }

  // -------------------------------------------------------------- transactions

  function RegisterTx(db: DB, agentId: Id, versionId: Id): Result<DB> {
    if agentId in db.agents || versionId in db.versions then Err(Internal)
    else
      Ok(db.(versions := db.versions[versionId := VersionRow(agentId, Active, true)],
             agents := db.agents[agentId := Some(versionId)]))
  }

  function CreateDraftTx(db: DB, agentId: Id, versionId: Id): Result<DB> {
    if agentId !in db.agents || versionId in db.versions then Err(Internal)
    else Ok(db.(versions := db.versions[versionId := VersionRow(agentId, Draft, false)]))
  }

  function NewRun(versionId: Id, rule: string, now: int, plan: seq<string>, security: map<string, bool>): Run {
    Run(versionId, if rule == "" then RULE_V1 else rule, now, plan, security,
        map k | k in plan :: PlannedTask(), Running, [], Summary(0.0, 0.0, 0, false), None, [])
  }

  /** The platform publishes tasks and leaves the run running; another executor answers at once. */
  datatype Executor = Platform | Synchronous(results: Result<seq<TaskResult>>)

  function Refs(results: seq<TaskResult>): seq<string> {
    seq(|results|, i requires 0 <= i < |results| => results[i].taskRef)
  }

  function StartRunTx(
    db: DB, seen: DB, agentId: Id, versionId: Id, runId: Id, rule: string, now: int,
    plan: seq<string>, security: map<string, bool>, executor: Executor): Result<DB>
  {
    if versionId !in seen.versions || seen.versions[versionId].agentId != agentId then Err(NotFound)
    else if seen.versions[versionId].status != Draft then Err(StateConflict)
    else if (rule != "" && rule != RULE_V1) || versionId == "" || runId == "" then Err(InvalidArgument)
    else if runId in db.runs then Err(Internal)
    else
      var evaluating := Transition(db, agentId, versionId, Evaluating);
      if evaluating.Err? then evaluating
      else if executor.Platform? then
        if !Distinct(plan) then Err(Internal)
        else Ok(evaluating.value.(runs := db.runs[runId := NewRun(versionId, rule, now, plan, security)]))
      else if executor.results.Err? then Err(executor.results.code)
      else if !Distinct(Refs(executor.results.value)) then Err(Internal)
      else
        var results := executor.results.value;
        var done := CompleteAt(NewRun(versionId, rule, now, [], map[]), ThresholdsOf(TallyOf(results)), SummaryOf(TallyOf(results)), now);
        if done.Err? then Err(done.code)
        else
          var run := done.value.(results := RowsOf(results));
          Verdict(evaluating.value.(runs := db.runs[runId := run]), agentId, run)
  }

  /** The worker: the run is locked while running; the version's agent was read at `seen`. */
  function HarvestRunTx(db: DB, seen: DB, runId: Id, observe: Observer, now: int, timeout: int): Result<DB>
    requires runId in db.runs ==> WellPlanned(db.runs[runId])
  {
    if runId !in db.runs || db.runs[runId].status != Running then Ok(db)
    else
      var harvested := HarvestTx(db.runs[runId], observe, now, timeout);
      if harvested.Err? then Err(harvested.code)
      else
        var stored := db.(runs := db.runs[runId := harvested.value]);
        if harvested.value.status == Running then Ok(stored)
        else if harvested.value.versionId !in seen.versions then Err(NotFound)
        else Verdict(stored, seen.versions[harvested.value.versionId].agentId, harvested.value)
  }

  function RowTx(db: DB, runId: Id, written: Result<Run>): Result<DB> {
    if written.Err? then Err(written.code) else Ok(db.(runs := db.runs[runId := written.value]))
  }

  function TaskIdTx(db: DB, runId: Id, k: string, taskId: string): Result<DB> {
    if runId !in db.runs then Err(NotFound) else RowTx(db, runId, SetTaskId(db.runs[runId], k, taskId))
  }

  function PublishFailureTx(db: DB, runId: Id, k: string, message: string): Result<DB> {
    if runId !in db.runs then Err(NotFound) else RowTx(db, runId, RecordPublishFailure(db.runs[runId], k, message))
  }

  /** Completion by an outside caller: the run was read at `seen`, the write is guarded on its still running. */
  function CompleteRunTx(
    db: DB, seen: DB, agentId: Id, versionId: Id, runId: Id, thresholds: seq<Threshold>, summary: Summary, now: int): Result<DB>
  {
    if runId !in seen.runs then Err(NotFound)
    else if seen.runs[runId].versionId != "" && seen.runs[runId].versionId != versionId then Err(StateConflict)
    else
      var done := CompleteAt(seen.runs[runId], thresholds, summary, now);
      if done.Err? then Err(done.code)
      else if runId !in db.runs || db.runs[runId].status != Running then Err(StateConflict)
      else
        var run := db.runs[runId].(status := done.value.status, thresholds := thresholds, summary := summary, completedAt := Some(now));
        Transition(db.(runs := db.runs[runId := run]), agentId, versionId, if run.status == Passed then Eligible else Rejected)
  }

  predicate HasRun(db: DB, versionId: Id, status: RunStatus) {
    exists r :: r in db.runs && db.runs[r].versionId == versionId && db.runs[r].status == status
  }

  /** What `GetActiveByAgent` may return. */
  predicate IsActiveOf(db: DB, agentId: Id, active: Option<Id>) {
    if active.Some? then active.value in db.versions && db.versions[active.value] == db.versions[active.value].(agentId := agentId, status := Active)
    else forall v :: v in db.versions && db.versions[v].agentId == agentId ==> db.versions[v].status != Active
  }

  /** `expected` was read before the agent was locked; the target at `seen` and `active` after. */
  function PromoteTx(db: DB, seen: DB, expected: Option<Id>, active: Option<Id>, agentId: Id, versionId: Id): Result<DB> {
    if agentId !in db.agents then Err(NotFound)
    else if versionId !in seen.versions || seen.versions[versionId].agentId != agentId then Err(NotFound)
    else if seen.versions[versionId].status != Eligible then Err(StateConflict)
    else if !HasRun(db, versionId, Passed) then Err(StateConflict)
    else
      var retired := if active.Some? then UpdateStatus(db, agentId, active.value, Retired) else Ok(db);
      if retired.Err? then retired
      else
        var promoted := UpdateStatus(retired.value, agentId, versionId, Active);
        if promoted.Err? then promoted else PromoteAgentCurrentVersion(promoted.value, agentId, versionId, expected)
  }

  function RollbackTx(db: DB, seen: DB, agentId: Id, versionId: Id): Result<DB> {
    if agentId !in db.agents then Err(NotFound)
    else if versionId !in seen.versions || seen.versions[versionId].agentId != agentId then Err(NotFound)
    else if !CanRollbackTo(seen.versions[versionId].status) then Err(StateConflict)
    else Ok(db.(agents := db.agents[agentId := Some(versionId)]))
  }

  // ------------------------------------------------------------------- objects

  /** A loaded version; its methods move it through its lifecycle. */
  class AgentVersion {
    var status: VersionStatus
    var promotedBy: string

    constructor (status: VersionStatus)
      ensures this.status == status && promotedBy == ""
    {
      this.status, promotedBy := status, "";
    }

    method Promote(actorId: string) returns (r: Result<()>)
      modifies this
      ensures old(status) == Eligible ==> r.Ok? && status == Active && promotedBy == actorId
      ensures old(status) != Eligible ==> r == Err(StateConflict) && status == old(status) && promotedBy == old(promotedBy)
    {
      if status != Eligible {
        return Err(StateConflict);
      }
      status, promotedBy := Active, actorId;
      return Ok(());
    }

    method Retire() returns (r: Result<()>)
      modifies this`status
      ensures old(status) == Active ==> r.Ok? && status == Retired
      ensures old(status) != Active ==> r == Err(StateConflict) && status == old(status)
    {
      if status != Active {
        return Err(StateConflict);
      }
      status := Retired;
      return Ok(());
    }
  }

  /** The stored tables and the services' transactions on versions; an error rolls back. */
  class VersionService {
    var db: DB

    constructor (db: DB)
      ensures this.db == db
    {
      this.db := db;
    }

    method Promote(seen: DB, expected: Option<Id>, active: Option<Id>, agentId: Id, versionId: Id, actorId: string)
      returns (r: Result<()>)
      requires IsActiveOf(seen, agentId, active)
      modifies this
      ensures (if r.Ok? then Ok(db) else Err(r.code)) == PromoteTx(old(db), seen, expected, active, agentId, versionId)
      ensures r.Err? ==> db == old(db)
    {
      if agentId !in db.agents || versionId !in seen.versions || seen.versions[versionId].agentId != agentId {
        return Err(NotFound);
      }
      var target := new AgentVersion(seen.versions[versionId].status);
      if target.status != Eligible {
        return Err(StateConflict);
      }
      if !HasRun(db, versionId, Passed) {
        return Err(StateConflict);
      }
      var next := db;
      if active.Some? {
        var previous := new AgentVersion(seen.versions[active.value].status);
        var retiring := previous.Retire();
        assert retiring.Ok?;
        var retired := UpdateStatus(next, agentId, active.value, previous.status);
        if retired.Err? {
          return Err(retired.code);
        }
        next := retired.value;
      }
      var promoting := target.Promote(actorId);
      assert promoting.Ok?;
      var promoted := UpdateStatus(next, agentId, versionId, target.status);
      if promoted.Err? {
        return Err(promoted.code);
      }
      var current := PromoteAgentCurrentVersion(promoted.value, agentId, versionId, expected);
      if current.Err? {
        return Err(current.code);
      }
      db := current.value;
      return Ok(());
    }

    method Rollback(seen: DB, agentId: Id, versionId: Id) returns (r: Result<()>)
      modifies this
      ensures (if r.Ok? then Ok(db) else Err(r.code)) == RollbackTx(old(db), seen, agentId, versionId)
      ensures r.Err? ==> db == old(db)
    {
      if agentId !in db.agents || versionId !in seen.versions || seen.versions[versionId].agentId != agentId {
        return Err(NotFound);
      }
      if !CanRollbackTo(seen.versions[versionId].status) {
        return Err(StateConflict);
      }
      db := db.(agents := db.agents[agentId := Some(versionId)]);
      return Ok(());
    }

    /** The plan rows of a platform run, inserted one by one under the key (run, task). */
    method PlanRows(plan: seq<string>) returns (rows: map<string, RunTask>, ok: bool)
      ensures ok <==> Distinct(plan)
      ensures ok ==> rows == map k | k in plan :: PlannedTask()
    {
      rows, ok := map[], true;
      var i := 0;
      while i < |plan|
        invariant i <= |plan| && Distinct(plan[..i]) && ok
        invariant rows == map k | k in plan[..i] :: PlannedTask()
      {
        assert plan[..i + 1] == plan[..i] + [plan[i]];
        if plan[i] in rows {
          var j :| 0 <= j < i && plan[j] == plan[i];
          ok := false;
          return;
        }
        rows := rows[plan[i] := PlannedTask()];
        i := i + 1;
      }
      assert plan[..i] == plan;
    }

    method StartEvaluationRun(
      seen: DB, agentId: Id, versionId: Id, runId: Id, rule: string, now: int,
      plan: seq<string>, security: map<string, bool>, executor: Executor) returns (r: Result<()>)
      modifies this
      ensures (if r.Ok? then Ok(db) else Err(r.code))
              == StartRunTx(old(db), seen, agentId, versionId, runId, rule, now, plan, security, executor)
      ensures r.Err? ==> db == old(db)
    {
      if versionId !in seen.versions || seen.versions[versionId].agentId != agentId {
        return Err(NotFound);
      }
      if seen.versions[versionId].status != Draft {
        return Err(StateConflict);
      }
      if (rule != "" && rule != RULE_V1) || versionId == "" || runId == "" {
        return Err(InvalidArgument);
      }
      if runId in db.runs {
        return Err(Internal);
      }
      var evaluating := Transition(db, agentId, versionId, Evaluating);
      if evaluating.Err? {
        return Err(evaluating.code);
      }
      if executor.Platform? {
        var rows, distinct := PlanRows(plan);
        if !distinct {
          return Err(Internal);
        }
        var run := NewRun(versionId, rule, now, plan, security).(tasks := rows);
        db := evaluating.value.(runs := db.runs[runId := run]);
        return Ok(());
      }
      if executor.results.Err? {
        return Err(executor.results.code);
      }
      r := FinishSynchronously(evaluating.value, agentId, versionId, runId, rule, now, executor.results.value);
    }

    /** Scores the executor's results and completes the new run in the same transaction. */
    method FinishSynchronously(
      evaluating: DB, agentId: Id, versionId: Id, runId: Id, rule: string, now: int, results: seq<TaskResult>) returns (r: Result<()>)
      requires (rule == "" || rule == RULE_V1) && evaluating.runs == db.runs
      modifies this
      ensures var done := CompleteAt(NewRun(versionId, rule, now, [], map[]),
                                     ThresholdsOf(TallyOf(results)), SummaryOf(TallyOf(results)), now);
              (if r.Ok? then Ok(db) else Err(r.code)) ==
                if !Distinct(Refs(results)) then Err(Internal)
                else if done.Err? then Err(done.code)
                else
                  var run := done.value.(results := RowsOf(results));
                  Verdict(evaluating.(runs := evaluating.runs[runId := run]), agentId, run)
      ensures r.Err? ==> db == old(db)
    {
      var store := new RunStore(NewRun(versionId, rule, now, [], map[]));
      var thresholds, summary := ApplyScoringRule(results, RULE_V1);
      var done := store.Complete(thresholds, summary, now);
      if !Distinct(Refs(results)) {
        return Err(Internal);
      }
      assert done.Ok?;
      store.CreateResults(results);
      assert [] + RowsOf(results) == RowsOf(results);
      var run := store.run;
      var verdict := Verdict(evaluating.(runs := evaluating.runs[runId := run]), agentId, run);
      if verdict.Err? {
        return Err(verdict.code);
      }
      db := verdict.value;
      return Ok(());
    }
  }
}

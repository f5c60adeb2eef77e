/**
 The task and execution tables and the transactions of the lifecycle.

 Every row write is guarded as its SQL statement is. A transaction receives the rows it read and
 the tables at commit time separately, and only the version guard ties the two together. Tasks are
 read without a lock. Some transactions read executions `FOR UPDATE` and others do not; the model does
 not use these locks: it admits every run that they admit, and more.
 */
module Lifecycle {
  import opened Common
  import opened Domain

  type Id = string

  datatype TaskRow = TaskRow(
    publisherId: string, deadline: int, status: TaskStatus, version: nat, active: Option<Id>, content: string)

  datatype ExecutionRow = ExecutionRow(
    state: ExecutionState, version: nat, startedAt: Option<int>, submittedAt: Option<int>, expiredAt: Option<int>)

  datatype DB = DB(tasks: map<Id, TaskRow>, executions: map<Id, ExecutionRow>)

  /** A task as `GetTask` returns it, with the claimant joined in through the active execution. */
  datatype TaskRecord = TaskRecord(id: Id, row: TaskRow, claimedBy: string)

  datatype Written = Written(db: DB, updated: bool)

  // -------------------------------------------------------------- row access

  function GetTask(db: DB, id: Id): Result<TaskRecord> {
    if id !in db.tasks then Err(NotFound)
    else
      var row := db.tasks[id];
      var joined := row.active.Some? && row.active.value in db.executions && db.executions[row.active.value].state.taskId == id;
      Ok(TaskRecord(id, row, if joined then db.executions[row.active.value].state.agentId else ""))
  }

  function UpdateTask(db: DB, record: TaskRecord, status: TaskStatus, active: Option<Id>): Written {
    if record.id in db.tasks && db.tasks[record.id].version == record.row.version then
      var row := db.tasks[record.id].(
                   content := record.row.content, status := status, version := record.row.version + 1, active := active);
      Written(db.(tasks := db.tasks[record.id := row]), true)
    else Written(db, false)
  }

  function ClaimTask(db: DB, id: Id, expectedVersion: nat, executionId: Id, now: int): Written {
    if id in db.tasks && db.tasks[id].status == Open && db.tasks[id].version == expectedVersion && db.tasks[id].deadline > now then
      var row := db.tasks[id].(status := Claimed, version := expectedVersion + 1, active := Some(executionId));
      Written(db.(tasks := db.tasks[id := row]), true)
    else Written(db, false)
  }

  /** The partial unique index: no other active execution on the task. */
  predicate IndexAllows(db: DB, taskId: Id) {
    forall e :: e in db.executions && db.executions[e].state.taskId == taskId ==> !IsActive(db.executions[e].state.status)
  }

  function InsertExecution(db: DB, id: Id, e: ExecutionState): Result<DB> {
    if id in db.executions || e.taskId !in db.tasks then Err(Internal)
    else if !IndexAllows(db, e.taskId) then Err(StateConflict)
    else Ok(db.(executions := db.executions[id := ExecutionRow(e, 0, None, None, None)]))
  }

  function Stamp(old_: Option<int>, due: bool, now: int): Option<int> {
    if due && old_.None? then Some(now) else old_
  }

  function WithState(row: ExecutionRow, e: ExecutionState): ExecutionState {
    row.state.(status := e.status, stage := e.stage, progress := e.progress, lease := e.lease)
  }

  function UpdateExecution(db: DB, id: Id, e: ExecutionState, expectedVersion: nat, now: int): Written {
    if id in db.executions && db.executions[id].version == expectedVersion then
      var row := db.executions[id];
      var written := ExecutionRow(WithState(row, e), expectedVersion + 1,
                                  Stamp(row.startedAt, e.status == Running, now),
                                  Stamp(row.submittedAt, e.status == Submitted, now),
                                  Stamp(row.expiredAt, e.status == Expired, now));
      Written(db.(executions := db.executions[id := written]), true)
    else Written(db, false)
  }

  function UpdateOwnedExecution(
    db: DB, id: Id, e: ExecutionState, expectedVersion: nat, agentId: string, expectedGeneration: int, now: int): Written
  {
    if && id in db.executions
       && var row := db.executions[id];
          && row.version == expectedVersion
          && row.state.agentId == agentId && row.state.lease.generation == expectedGeneration
          && IsLive(row.state.status)
          && row.state.lease.hardExpiry >= now
    then
      var row := db.executions[id];
      var written := ExecutionRow(WithState(row, e), expectedVersion + 1,
                                  Stamp(row.startedAt, e.status == Running, now), row.submittedAt, row.expiredAt);
      Written(db.(executions := db.executions[id := written]), true)
    else Written(db, false)
  }

  predicate IsActiveOn(db: DB, id: Id, taskId: Id) {
    id in db.executions && db.executions[id].state.taskId == taskId && IsActive(db.executions[id].state.status)
  }

  /** What `ListActiveExecutions` returns: each active execution of the task, once. */
  ghost predicate IsListing(db: DB, taskId: Id, listed: seq<Id>) {
    && (forall e :: IsActiveOn(db, e, taskId) <==> e in listed)
    && (forall i, j :: 0 <= i < j < |listed| ==> listed[i] != listed[j])
  }

  // ------------------------------------------------------------ transactions

  function StateOf(record: TaskRecord): TaskState {
    TaskState(record.row.publisherId, record.row.deadline, record.row.status, record.claimedBy)
  }

  function Checked(w: Written, code: ErrorCode): Result<DB> {
    if w.updated then Ok(w.db) else Err(code)
  }

  function PublishTx(db: DB, id: Id, publisherId: string, deadline: int, content: string, now: int): Result<DB> {
    if now >= deadline || id == "" || publisherId == "" then Err(InvalidArgument)
    else if id in db.tasks then Err(Internal)
    else Ok(db.(tasks := db.tasks[id := TaskRow(publisherId, deadline, Open, 0, None, content)]))
  }

  function ClaimTx(db: DB, record: TaskRecord, agentId: string, newId: Id, now: int): Result<DB> {
    var applied := ApplyTask(StateOf(record), Claim, Actor(Agent, agentId), now);
    if applied.Err? then Err(applied.code)
    else
      var execution := NewLeasedExecution(newId, record.id, agentId, now, 1);
      if execution.Err? then Err(execution.code)
      else
        var w := ClaimTask(db, record.id, record.row.version, newId, now);
        if !w.updated then Err(StateConflict) else InsertExecution(w.db, newId, execution.value)
  }

  /** Start or Heartbeat, by the agent holding the execution. */
  datatype Mutation = Mutation(starts: bool, agentId: string, generation: int, stage: Option<string>, progress: Option<real>)

  function Mutated(e: ExecutionState, m: Mutation, now: int): Attempt {
    if m.starts then StartAttempt(e, now, m.generation, m.stage, m.progress)
    else HeartbeatAttempt(e, now, m.generation, m.stage, m.progress)
  }

  function MutateTx(db: DB, id: Id, row: ExecutionRow, record: TaskRecord, m: Mutation, now: int): Result<DB> {
    if row.state.agentId != m.agentId then Err(NotFound)
    else if now >= record.row.deadline then Err(DeadlineExceeded)
    else
      var a := Mutated(row.state, m, now);
      if a.error.Some? then Err(a.error.value)
      else
        var applied := ApplyTask(StateOf(record), Start, Actor(Agent, m.agentId), now);
        if m.starts && applied.Err? then Err(applied.code)
        else
          var w := UpdateOwnedExecution(db, id, a.state, row.version, m.agentId, m.generation, now);
          if !w.updated then Err(LeaseExpired)
          else if m.starts then Checked(UpdateTask(w.db, record, InProgress, Some(id)), StateConflict)
          else Ok(w.db)
  }

  /** The loop of `CancelTask` over the listed executions, read at `seen`. */
  function CancelAll(db: DB, seen: DB, listed: seq<Id>, actor: Actor, now: int): Result<DB>
    decreases |listed|
  {
    if listed == [] then Ok(db)
    else if listed[0] !in seen.executions then Err(Internal)
    else
      var row := seen.executions[listed[0]];
      var cancelled := ApplyExecution(row.state, Cancel, actor, now);
      if cancelled.Err? then Err(cancelled.code)
      else
        var w := UpdateExecution(db, listed[0], cancelled.value, row.version, now);
        if !w.updated then Err(StateConflict) else CancelAll(w.db, seen, listed[1..], actor, now)
  }

  function CancelTx(db: DB, record: TaskRecord, seen: DB, listed: seq<Id>, agentId: string, now: int): Result<DB> {
    if record.row.publisherId != agentId then Err(NotFound)
    else
      var actor := Actor(Publisher, agentId);
      var applied := ApplyTask(StateOf(record), Cancel, actor, now);
      if applied.Err? then Err(applied.code)
      else
        var cancelled := CancelAll(db, seen, listed, actor, now);
        if cancelled.Err? then cancelled
        else Checked(UpdateTask(cancelled.value, record, TaskCancelled, None), StateConflict)
  }

  /** Cancels the task only: its execution, if any, is left as it is. */
  function SystemCancelTx(db: DB, record: TaskRecord, now: int): Result<DB> {
    var applied := ApplyTask(StateOf(record), Cancel, Actor(Publisher, SYSTEM_PUBLISHER), now);
    if applied.Err? then Err(applied.code)
    else Checked(UpdateTask(db, record, TaskCancelled, None), StateConflict)
  }

  function ContentTx(db: DB, record: TaskRecord, content: string): Result<DB> {
    if record.row.status != Open && record.row.status != Draft then Ok(db)
    else Checked(UpdateTask(db, record.(row := record.row.(content := content)), record.row.status, None), StateConflict)
  }

  /** Is the notified intent already reflected in the status? */
  predicate AlreadyApplied(s: ExecutionStatus, intent: Intent) {
    match intent
    case Submit => s in {Submitted, Validating, ValidationFailed, Reviewing, RevisionRequested, Accepted, Rejected}
    case StartValidation => s in {Validating, ValidationFailed, Reviewing, RevisionRequested, Accepted, Rejected}
    case FailValidation => s == ValidationFailed
    case MarkReviewing => s in {Reviewing, RevisionRequested, Accepted, Rejected}
    case _ => false
  }

  function NotifyTx(db: DB, id: Id, row: ExecutionRow, intent: Intent, actor: Actor, now: int): Result<DB> {
    if AlreadyApplied(row.state.status, intent) then Ok(db)
    else
      var applied := ApplyExecution(row.state, intent, actor, now);
      if applied.Err? then Err(applied.code)
      else Checked(UpdateExecution(db, id, applied.value, row.version, now), StateConflict)
  }

  datatype Decision = DecideAccept | DecideReject | DecideRevision

  function DecisionIntent(d: Decision): Intent {
    match d
    case DecideAccept => Accept
    case DecideReject => Reject
    case DecideRevision => RequestRevision
  }

  /** A review decision; acceptance also completes the task. */
  function ReviewTx(db: DB, id: Id, row: ExecutionRow, record: Result<TaskRecord>, d: Decision, reviewerId: string, now: int): Result<DB> {
    var actor := Actor(Reviewer, reviewerId);
    var applied := ApplyExecution(row.state, DecisionIntent(d), actor, now);
    if applied.Err? then Err(applied.code)
    else if d.DecideAccept? then
      if record.Err? then Err(record.code)
      else
        var completed := ApplyTask(StateOf(record.value), Complete, actor, now);
        if completed.Err? then Err(completed.code)
        else
          var w := UpdateTask(db, record.value, Completed, Some(id));
          if !w.updated then Err(StateConflict)
          else Checked(UpdateExecution(w.db, id, applied.value, row.version, now), StateConflict)
    else Checked(UpdateExecution(db, id, applied.value, row.version, now), StateConflict)
  }

  // ------------------------------------------------------------------ reaping

  predicate Attached(db: DB, id: Id, taskId: Id) {
    taskId in db.tasks && db.tasks[taskId].active == Some(id) && db.tasks[taskId].status in {Claimed, InProgress}
  }

  /** Expire one execution and, if it is attached, reopen or expire its task; `updated` counts the latter. */
  function ReapExecution(db: DB, id: Id, now: int): Written {
    if id !in db.executions || !IsLive(db.executions[id].state.status) then Written(db, false)
    else
      var row := db.executions[id];
      var expired := row.(state := row.state.(status := Expired), version := row.version + 1, expiredAt := Some(now));
      var db1 := db.(executions := db.executions[id := expired]);
      var taskId := row.state.taskId;
      if Attached(db, id, taskId) then
        var task := db.tasks[taskId];
        var status := if now >= task.deadline then TaskExpired else Open;
        Written(db1.(tasks := db.tasks[taskId := task.(status := status, version := task.version + 1, active := None)]), true)
      else Written(db1, false)
  }

  function ReapOpen(db: DB, id: Id, now: int): Written {
    if id in db.tasks && db.tasks[id].status == Open && db.tasks[id].active == None then
      var task := db.tasks[id];
      Written(db.(tasks := db.tasks[id := task.(status := TaskExpired, version := task.version + 1)]), true)
    else Written(db, false)
  }

  function ReapExecutions(db: DB, ids: seq<Id>, now: int): DB
    decreases |ids|
  {
    if ids == [] then db else ReapExecutions(ReapExecution(db, ids[0], now).db, ids[1..], now)
  }

  function ReapOpens(db: DB, ids: seq<Id>, now: int): DB
    decreases |ids|
  {
    if ids == [] then db else ReapOpens(ReapOpen(db, ids[0], now).db, ids[1..], now)
  }

  predicate ExecutionDue(db: DB, id: Id, now: int) {
    && id in db.executions && IsLive(db.executions[id].state.status) && db.executions[id].state.taskId in db.tasks
    && (db.executions[id].state.lease.hardExpiry < now || db.tasks[db.executions[id].state.taskId].deadline <= now)
  }

  predicate TaskDue(db: DB, id: Id, now: int) {
    id in db.tasks && db.tasks[id].status == Open && db.tasks[id].active == None && db.tasks[id].deadline <= now
  }

  function ReapTx(db: DB, executions: seq<Id>, tasks: seq<Id>, now: int): DB {
    ReapOpens(ReapExecutions(db, executions, now), tasks, now)
  }

  // --------------------------------------------------------------- operations

  datatype Op =
    | PublishOp(id: Id, publisherId: string, deadline: int, content: string, now: int)
    | ClaimOp(taskId: Id, agentId: string, newId: Id, now: int)
    | MutateOp(executionId: Id, mutation: Mutation, now: int)
    | CancelOp(taskId: Id, listed: seq<Id>, agentId: string, now: int)
    | SystemCancelOp(taskId: Id, now: int)
    | ContentOp(taskId: Id, content: string)
    | NotifyOp(executionId: Id, intent: Intent, actor: Actor, now: int)
    | ReviewOp(executionId: Id, decision: Decision, reviewerId: string, now: int)
    | ReapOp(executions: seq<Id>, tasks: seq<Id>, now: int)

  /**
   One transaction: its task row was read at `tdb`, its execution rows at `edb`, and it commits
   against `db`. An error rolls everything back.
   */
  function Execute(op: Op, tdb: DB, edb: DB, db: DB): Result<DB> {
    match op
    case PublishOp(id, publisherId, deadline, content, now) => PublishTx(db, id, publisherId, deadline, content, now)
    case ClaimOp(taskId, agentId, newId, now) =>
      var record := GetTask(tdb, taskId);
      if record.Err? then Err(record.code) else ClaimTx(db, record.value, agentId, newId, now)
    case MutateOp(id, m, now) =>
      if id !in edb.executions then Err(NotFound)
      else
        var record := GetTask(tdb, edb.executions[id].state.taskId);
        if record.Err? then Err(record.code) else MutateTx(db, id, edb.executions[id], record.value, m, now)
    case CancelOp(taskId, listed, agentId, now) =>
      var record := GetTask(tdb, taskId);
      if record.Err? then Err(record.code) else CancelTx(db, record.value, edb, listed, agentId, now)
    case SystemCancelOp(taskId, now) =>
      var record := GetTask(tdb, taskId);
      if record.Err? then Err(record.code) else SystemCancelTx(db, record.value, now)
    case ContentOp(taskId, content) =>
      var record := GetTask(tdb, taskId);
      if record.Err? then Err(record.code) else ContentTx(db, record.value, content)
    case NotifyOp(id, intent, actor, now) =>
      if id !in edb.executions then Err(NotFound) else NotifyTx(db, id, edb.executions[id], intent, actor, now)
    case ReviewOp(id, decision, reviewerId, now) =>
      if id !in edb.executions then Err(NotFound)
      else
        ReviewTx(db, id, edb.executions[id], GetTask(tdb, edb.executions[id].state.taskId), decision, reviewerId, now)
    case ReapOp(executions, tasks, now) => Ok(ReapTx(db, executions, tasks, now))
  }

  /** The notifications that reach executions in production, and candidates a reaper may have selected. */
  ghost predicate Allowed(op: Op, edb: DB, db: DB) {
    match op
    case NotifyOp(_, intent, _, _) => intent in {Submit, StartValidation, FailValidation, MarkReviewing, SubmitForReview}
    case CancelOp(taskId, listed, _, _) => IsListing(edb, taskId, listed)
    case ReapOp(executions, tasks, now) =>
      && (forall i :: 0 <= i < |executions| ==> ExecutionDue(db, executions[i], now))
      && (forall i :: 0 <= i < |tasks| ==> TaskDue(db, tasks[i], now))
    case _ => true
  }
}

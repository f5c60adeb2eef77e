/**
 Runs of the lifecycle: transactions interleaved in any order, each committing on reads taken at any
 earlier point of the run.
 */
module LifecycleRuns {
  import opened Common
  import opened Domain
  import opened Lifecycle
  import opened LifecycleInvariant

  /** A transaction with the points of the run at which it read its task row and its execution rows. */
  datatype Step = Step(op: Op, taskReadAt: nat, executionsReadAt: nat)

  function After(r: Result<DB>, db: DB): DB {
    if r.Ok? then r.value else db
  }

  ghost predicate StepOk(states: seq<DB>, i: nat, step: Step)
    requires i < |states|
  {
    && step.taskReadAt <= i && step.executionsReadAt <= i
    && (step.op.CancelOp? ==> step.taskReadAt <= step.executionsReadAt)
    && Allowed(step.op, states[step.executionsReadAt], states[i])
  }

  function Outcome(states: seq<DB>, i: nat, step: Step): Result<DB>
    requires i < |states| && step.taskReadAt <= i && step.executionsReadAt <= i
  {
    Execute(step.op, states[step.taskReadAt], states[step.executionsReadAt], states[i])
  }

  ghost predicate StepAt(states: seq<DB>, steps: seq<Step>, i: nat)
    requires |states| == |steps| + 1 && i < |steps|
  {
    StepOk(states, i, steps[i]) && states[i + 1] == After(Outcome(states, i, steps[i]), states[i])
  }

  ghost predicate IsRun(states: seq<DB>, steps: seq<Step>) {
    && |states| == |steps| + 1
    && states[0] == DB(map[], map[])
    && forall i :: 0 <= i < |steps| ==> StepAt(states, steps, i)
  }

  function NextState(states: seq<DB>, step: Step): DB
    requires states != [] && step.taskReadAt < |states| && step.executionsReadAt < |states|
  {
    After(Outcome(states, |states| - 1, step), states[|states| - 1])
  }

  lemma Extend(states: seq<DB>, steps: seq<Step>, step: Step)
    requires IsRun(states, steps) && StepOk(states, |states| - 1, step)
    ensures IsRun(states + [NextState(states, step)], steps + [step])
  {
    var states', steps' := states + [NextState(states, step)], steps + [step];
    forall i | 0 <= i < |steps'| ensures StepAt(states', steps', i) {
      if i < |steps| {
        assert StepAt(states, steps, i);
      }
    }
  }

  // ---------------------------------------------- a commit proves its reads fresh

  lemma RecordFresh(tdb: DB, db: DB, id: Id)
    requires Inv(tdb) && Grows(tdb, db) && id in tdb.tasks
    ensures id in db.tasks && TaskGrows(tdb.tasks[id], db.tasks[id])
    ensures db.tasks[id].version == tdb.tasks[id].version ==> GetTask(db, id) == GetTask(tdb, id)
  {
    assert TaskOk(tdb, id);
    var active := tdb.tasks[id].active;
    assert active.Some? ==> Holds(tdb, id, active) && ExecutionGrows(tdb.executions[active.value], db.executions[active.value]);
  }

  lemma RowFresh(edb: DB, db: DB, id: Id)
    requires Grows(edb, db) && id in edb.executions
    ensures id in db.executions && db.executions[id].state.taskId == edb.executions[id].state.taskId
    ensures db.executions[id].version == edb.executions[id].version ==> db.executions[id] == edb.executions[id]
  {
    assert ExecutionGrows(edb.executions[id], db.executions[id]);
  }

  lemma {:induction false} CancelAllReadsFresh(db: DB, seen: DB, listed: seq<Id>, actor: Actor, now: int)
    requires CancelAll(db, seen, listed, actor, now).Ok?
    requires forall i, j :: 0 <= i < j < |listed| ==> listed[i] != listed[j]
    ensures CancelAll(db, seen, listed, actor, now).value.tasks == db.tasks
    ensures forall e :: e in listed ==>
              && e in seen.executions && e in db.executions
              && db.executions[e].version == seen.executions[e].version
              && IsActive(seen.executions[e].state.status)
    decreases |listed|
  {
    if listed != [] {
      var row := seen.executions[listed[0]];
      var w := UpdateExecution(db, listed[0], ApplyExecution(row.state, Cancel, actor, now).value, row.version, now);
      CancelAllReadsFresh(w.db, seen, listed[1..], actor, now);
      forall e | e in listed
        ensures e == listed[0] || (e in listed[1..] && e != listed[0])
      {
        var i :| 0 <= i < |listed| && listed[i] == e;
        assert i > 0 ==> listed[1..][i - 1] == e;
      }
    }
  }

  /** The task and every listed row are as they were read. */
  lemma CancelRowsFresh(op: Op, tdb: DB, edb: DB, db: DB)
    requires op.CancelOp? && Inv(tdb) && Grows(tdb, edb) && Grows(tdb, db) && Grows(edb, db)
    requires IsListing(edb, op.taskId, op.listed) && Execute(op, tdb, edb, db).Ok?
    ensures op.taskId in db.tasks && op.taskId in edb.tasks && db.tasks[op.taskId].version == edb.tasks[op.taskId].version
    ensures GetTask(tdb, op.taskId).Ok? && GetTask(tdb, op.taskId) == GetTask(db, op.taskId)
    ensures RowsAgree(edb, db, op.listed)
  {
    CancelAllReadsFresh(db, edb, op.listed, Actor(Publisher, op.agentId), op.now);
    RecordFresh(tdb, db, op.taskId);
    RecordFresh(tdb, edb, op.taskId);
    assert TaskGrows(edb.tasks[op.taskId], db.tasks[op.taskId]);
    forall e | e in op.listed ensures e in edb.executions && e in db.executions && edb.executions[e] == db.executions[e] {
      RowFresh(edb, db, e);
    }
  }

  /** What is active on the task now was already when its executions were listed. */
  ghost predicate NoneNew(edb: DB, db: DB, taskId: Id) {
    forall e :: IsActiveOn(db, e, taskId) ==> IsActiveOn(edb, e, taskId)
  }

  ghost predicate RowsAgree(edb: DB, db: DB, listed: seq<Id>) {
    forall e :: e in listed ==> e in edb.executions && e in db.executions && edb.executions[e] == db.executions[e]
  }

  lemma ListingStays(edb: DB, db: DB, taskId: Id, listed: seq<Id>)
    requires IsListing(edb, taskId, listed) && RowsAgree(edb, db, listed) && NoneNew(edb, db, taskId)
    ensures IsListing(db, taskId, listed)
  {
    forall e ensures IsActiveOn(db, e, taskId) <==> e in listed {
      assert IsActiveOn(edb, e, taskId) <==> e in listed;
    }
  }

  /** The cancel loop has the same effect whether the rows are read early or at the commit. */
  lemma CancelLoopIsSerial(db: DB, edb: DB, taskId: Id, listed: seq<Id>, actor: Actor, now: int)
    requires IsListing(db, taskId, listed) && MayCancel(actor) && RowsAgree(edb, db, listed)
    ensures CancelAll(db, edb, listed, actor, now) == CancelAll(db, db, listed, actor, now)
  {
    forall i | 0 <= i < |listed| ensures IsActiveOn(db, listed[i], taskId) {
      assert listed[i] in listed;
    }
    CancelAllEffect(db, edb, listed, actor, now);
    CancelAllEffect(db, db, listed, actor, now);
  }

  lemma CancelIsSerial(op: Op, tdb: DB, edb: DB, db: DB)
    requires op.CancelOp? && GetTask(tdb, op.taskId) == GetTask(db, op.taskId)
    requires IsListing(db, op.taskId, op.listed) && RowsAgree(edb, db, op.listed) && Execute(op, tdb, edb, db).Ok?
    ensures Execute(op, tdb, edb, db) == Execute(op, db, db, db)
  {
    CancelLoopIsSerial(db, edb, op.taskId, op.listed, Actor(Publisher, op.agentId), op.now);
  }

  /** A committed cancel saw a complete listing of the executions active at commit time, even if no row was locked. */
  lemma CancelReadsFresh(op: Op, tdb: DB, edb: DB, db: DB)
    requires op.CancelOp? && Inv(tdb) && Grows(tdb, edb) && Grows(tdb, db) && Grows(edb, db)
    requires IsListing(edb, op.taskId, op.listed) && Execute(op, tdb, edb, db).Ok?
    requires op.taskId in db.tasks && op.taskId in edb.tasks && db.tasks[op.taskId].version == edb.tasks[op.taskId].version ==>
               NoneNew(edb, db, op.taskId)
    ensures op.taskId in db.tasks && IsListing(db, op.taskId, op.listed)
    ensures Execute(op, tdb, edb, db) == Execute(op, db, db, db)
  {
    CancelRowsFresh(op, tdb, edb, db);
    ListingStays(edb, db, op.taskId, op.listed);
    CancelIsSerial(op, tdb, edb, db);
  }

  lemma TaskWriteIsSerial(op: Op, tdb: DB, edb: DB, db: DB)
    requires op.ClaimOp? || op.SystemCancelOp? || op.ContentOp?
    requires Inv(tdb) && Grows(tdb, db)
    ensures var r := Execute(op, tdb, edb, db); r.Ok? ==> r.value == db || r == Execute(op, db, db, db)
  {
    if op.taskId in tdb.tasks {
      RecordFresh(tdb, db, op.taskId);
    }
  }

  /** A committed start or heartbeat wrote the execution as it is, and a start also the task as it is. */
  lemma MutateReadsFresh(op: Op, tdb: DB, edb: DB, db: DB)
    requires op.MutateOp? && Inv(tdb) && Grows(tdb, db) && Grows(edb, db) && Execute(op, tdb, edb, db).Ok?
    ensures op.executionId in edb.executions && op.executionId in db.executions
    ensures db.executions[op.executionId] == edb.executions[op.executionId]
    ensures var taskId := edb.executions[op.executionId].state.taskId;
            && taskId in tdb.tasks && taskId in db.tasks && db.tasks[taskId].deadline == tdb.tasks[taskId].deadline
            && (op.mutation.starts ==> GetTask(tdb, taskId) == GetTask(db, taskId))
  {
    var id := op.executionId;
    RowFresh(edb, db, id);
    var row := edb.executions[id];
    RecordFresh(tdb, db, row.state.taskId);
    var w := UpdateOwnedExecution(db, id, Mutated(row.state, op.mutation, op.now).state, row.version, op.mutation.agentId, op.mutation.generation, op.now);
    assert w.updated && w.db.tasks == db.tasks;
  }

  lemma MutateOnCurrentRows(op: Op, tdb: DB, edb: DB, db: DB)
    requires op.MutateOp? && Execute(op, tdb, edb, db).Ok?
    requires op.executionId in edb.executions && op.executionId in db.executions
    requires db.executions[op.executionId] == edb.executions[op.executionId]
    requires var taskId := edb.executions[op.executionId].state.taskId;
             && taskId in tdb.tasks && taskId in db.tasks && db.tasks[taskId].deadline == tdb.tasks[taskId].deadline
             && (op.mutation.starts ==> GetTask(tdb, taskId) == GetTask(db, taskId))
    ensures Execute(op, tdb, edb, db) == Execute(op, db, db, db)
  {
  }

  lemma MutateIsSerial(op: Op, tdb: DB, edb: DB, db: DB)
    requires op.MutateOp? && Inv(tdb) && Grows(tdb, db) && Grows(edb, db)
    ensures var r := Execute(op, tdb, edb, db); r.Ok? ==> r == Execute(op, db, db, db)
  {
    if Execute(op, tdb, edb, db).Ok? {
      MutateReadsFresh(op, tdb, edb, db);
      MutateOnCurrentRows(op, tdb, edb, db);
    }
  }

  lemma ReviewIsSerial(op: Op, tdb: DB, edb: DB, db: DB)
    requires op.ReviewOp? && Inv(tdb) && Grows(tdb, db) && Grows(edb, db)
    ensures var r := Execute(op, tdb, edb, db); r.Ok? ==> r == Execute(op, db, db, db)
  {
    var id := op.executionId;
    if Execute(op, tdb, edb, db).Ok? {
      RowFresh(edb, db, id);
      var taskId := edb.executions[id].state.taskId;
      if taskId in tdb.tasks {
        RecordFresh(tdb, db, taskId);
      }
      assert db.executions[id] == edb.executions[id];
    }
  }

  /** Serializability of one commit: it changed nothing, or did what it would have done on fresh reads. */
  lemma CommitIsSerial(op: Op, tdb: DB, edb: DB, db: DB)
    requires !op.CancelOp? && Inv(tdb) && Grows(tdb, db) && Grows(edb, db)
    ensures var r := Execute(op, tdb, edb, db); r.Ok? ==> r.value == db || r == Execute(op, db, db, db)
  {
    match op
    case MutateOp(_, _, _) => MutateIsSerial(op, tdb, edb, db);
    case ReviewOp(_, _, _, _) => ReviewIsSerial(op, tdb, edb, db);
    case NotifyOp(id, _, _, _) =>
      if id in edb.executions {
        RowFresh(edb, db, id);
      }
    case PublishOp(_, _, _, _, _) =>
    case ReapOp(_, _, _) =>
    case _ => TaskWriteIsSerial(op, tdb, edb, db);
  }

  /** A transaction on fresh reads keeps the invariant and only lets rows grow. */
  lemma FreshKeeps(op: Op, db: DB)
    requires Inv(db) && Allowed(op, db, db) && Execute(op, db, db, db).Ok?
    ensures Inv(Execute(op, db, db, db).value) && Grows(db, Execute(op, db, db, db).value)
  {
    match op
    case PublishOp(id, publisherId, deadline, content, now) => PublishKeeps(db, id, publisherId, deadline, content, now);
    case ClaimOp(taskId, agentId, newId, now) => ClaimKeeps(db, taskId, agentId, newId, now);
    case MutateOp(id, m, now) => MutateKeeps(db, id, m, now);
    case CancelOp(taskId, listed, agentId, now) => CancelKeeps(db, taskId, listed, agentId, now);
    case SystemCancelOp(taskId, now) => SystemCancelKeeps(db, taskId, now);
    case ContentOp(taskId, content) => ContentKeeps(db, taskId, content);
    case NotifyOp(id, intent, actor, now) => NotifyKeeps(db, id, intent, actor, now);
    case ReviewOp(id, d, reviewerId, now) => ReviewKeeps(db, id, d, reviewerId, now);
    case ReapOp(executions, tasks, now) => ReapKeeps(db, executions, tasks, now);
  }

  /** Between two points with the same version of a task, no execution of it becomes active. */
  lemma NoNewActive(a: DB, b: DB, taskId: Id, e: Id)
    requires Grows(a, b) && taskId in a.tasks && taskId in b.tasks && a.tasks[taskId].version == b.tasks[taskId].version
    requires IsActiveOn(b, e, taskId)
    ensures IsActiveOn(a, e, taskId)
  {
    assert e in a.executions ==> ExecutionGrows(a.executions[e], b.executions[e]);
  }

  lemma StepIsSerial(states: seq<DB>, steps: seq<Step>, i: nat)
    requires IsRun(states, steps) && i < |steps|
    requires KeptUpTo(states, i)
    ensures StepAt(states, steps, i)
    ensures var r := Outcome(states, i, steps[i]);
            r.Ok? && r.value != states[i] ==>
              r == Execute(steps[i].op, states[i], states[i], states[i]) && Allowed(steps[i].op, states[i], states[i])
  {
    assert StepAt(states, steps, i);
    var step := steps[i];
    var tdb, edb, db := states[step.taskReadAt], states[step.executionsReadAt], states[i];
    assert Grows(tdb, db) && Grows(edb, db);
    if step.op.CancelOp? {
      if Outcome(states, i, step).Ok? {
        var taskId := step.op.taskId;
        RecordFresh(tdb, db, taskId);
        RecordFresh(tdb, edb, taskId);
        forall e | IsActiveOn(db, e, taskId) && db.tasks[taskId].version == edb.tasks[taskId].version
          ensures IsActiveOn(edb, e, taskId)
        {
          NoNewActive(edb, db, taskId, e);
        }
        CancelReadsFresh(step.op, tdb, edb, db);
      }
    } else {
      CommitIsSerial(step.op, tdb, edb, db);
    }
  }

  lemma StepKeeps(states: seq<DB>, steps: seq<Step>, i: nat)
    requires IsRun(states, steps) && i < |steps|
    requires KeptUpTo(states, i)
    ensures Inv(states[i + 1]) && Grows(states[i], states[i + 1])
  {
    StepIsSerial(states, steps, i);
    assert StepAt(states, steps, i);
    if states[i + 1] != states[i] {
      FreshKeeps(steps[i].op, states[i]);
    }
  }

  ghost predicate KeptUpTo(states: seq<DB>, n: nat)
    requires n < |states|
  {
    && (forall j :: 0 <= j <= n ==> Inv(states[j]))
    && (forall j, k :: 0 <= j <= k <= n ==> Grows(states[j], states[k]))
  }

  lemma KeptAtStart(states: seq<DB>, steps: seq<Step>)
    requires IsRun(states, steps)
    ensures KeptUpTo(states, 0)
  {
    GrowsReflexive(states[0]);
  }

  lemma ExtendKept(states: seq<DB>, n: nat)
    requires n + 1 < |states| && KeptUpTo(states, n)
    requires Inv(states[n + 1]) && Grows(states[n], states[n + 1])
    ensures KeptUpTo(states, n + 1)
  {
    forall j | 0 <= j <= n
      ensures Grows(states[j], states[n + 1])
    {
      GrowsTransitive(states[j], states[n], states[n + 1]);
    }
    GrowsReflexive(states[n + 1]);
  }

  /**
   In every state of every run the invariant holds, and between any two points every row that
   existed before still exists and has only grown.
   */
  lemma {:induction false} RunKeeps(states: seq<DB>, steps: seq<Step>, n: nat)
    requires IsRun(states, steps) && n < |states|
    ensures KeptUpTo(states, n)
  {
    if n == 0 {
      KeptAtStart(states, steps);
    } else {
      RunKeeps(states, steps, n - 1);
      StepKeeps(states, steps, n - 1);
      ExtendKept(states, n - 1);
    }
  }

  /**
   Serializability: whatever stale reads the transactions of a run used, each one that changed
   anything did exactly what it would have done had it read the tables at its commit.
   */
  lemma EveryCommitIsSerial(states: seq<DB>, steps: seq<Step>, i: nat)
    requires IsRun(states, steps) && i < |steps| && states[i + 1] != states[i]
    ensures Execute(steps[i].op, states[i], states[i], states[i]) == Ok(states[i + 1])
    ensures Allowed(steps[i].op, states[i], states[i])
  {
    RunKeeps(states, steps, i);
    StepIsSerial(states, steps, i);
    assert StepAt(states, steps, i);
  }
}

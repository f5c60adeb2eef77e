/**
 The reaper: expires executions whose lease or task deadline has passed, reopens or expires their
 tasks, and expires unclaimed tasks at their deadline.
 */
module Reaper {
  import opened Common
  import opened Domain
  import opened Lifecycle
  import opened LifecycleInvariant

  // ------------------------------------------------- one batch, in closed form

  function ExpiredRow(row: ExecutionRow, now: int): ExecutionRow {
    row.(state := row.state.(status := Expired), version := row.version + 1, expiredAt := Some(now))
  }

  /** The task lost its claimed execution to this batch. */
  predicate Detached(db: DB, taskId: Id, executions: seq<Id>)
    requires taskId in db.tasks
  {
    var task := db.tasks[taskId];
    && task.active.Some? && task.active.value in executions && Attached(db, task.active.value, taskId)
    && task.active.value in db.executions && IsLive(db.executions[task.active.value].state.status)
  }

  function ReapedTask(db: DB, taskId: Id, executions: seq<Id>, tasks: seq<Id>, now: int): TaskRow
    requires taskId in db.tasks
  {
    var task := db.tasks[taskId];
    if Detached(db, taskId, executions) then
      task.(status := if now >= task.deadline then TaskExpired else Open, version := task.version + 1, active := None)
    else if taskId in tasks && task.status == Open && task.active == None then
      task.(status := TaskExpired, version := task.version + 1)
    else task
  }

  function ReapedExecution(db: DB, e: Id, executions: seq<Id>, now: int): ExecutionRow
    requires e in db.executions
  {
    var row := db.executions[e];
    if e in executions && IsLive(row.state.status) then ExpiredRow(row, now) else row
  }

  function Reaped(db: DB, executions: seq<Id>, tasks: seq<Id>, now: int): DB {
    DB(map t | t in db.tasks :: ReapedTask(db, t, executions, tasks, now),
       map e | e in db.executions :: ReapedExecution(db, e, executions, now))
  }

  lemma ReapOneThenRest(db: DB, id: Id, rest: seq<Id>, now: int)
    requires Inv(db)
    ensures var next := ReapExecution(db, id, now).db;
            && next.tasks.Keys == db.tasks.Keys && next.executions.Keys == db.executions.Keys
            && (forall t :: t in db.tasks ==> ReapedTask(next, t, rest, [], now) == ReapedTask(db, t, [id] + rest, [], now))
            && (forall e :: e in db.executions ==> ReapedExecution(next, e, rest, now) == ReapedExecution(db, e, [id] + rest, now))
  {
    var next := ReapExecution(db, id, now).db;
    forall t | t in db.tasks
      ensures ReapedTask(next, t, rest, [], now) == ReapedTask(db, t, [id] + rest, [], now)
    {
      assert TaskOk(db, t);
      assert id in db.executions ==> ExecutionOk(db, id);
    }
  }

  lemma SameReaped(a: DB, b: DB, ea: seq<Id>, eb: seq<Id>, ta: seq<Id>, tb: seq<Id>, now: int)
    requires a.tasks.Keys == b.tasks.Keys && a.executions.Keys == b.executions.Keys
    requires forall t :: t in b.tasks ==> ReapedTask(a, t, ea, ta, now) == ReapedTask(b, t, eb, tb, now)
    requires forall e :: e in b.executions ==> ReapedExecution(a, e, ea, now) == ReapedExecution(b, e, eb, now)
    ensures Reaped(a, ea, ta, now) == Reaped(b, eb, tb, now)
  {
    assert forall t :: t in a.tasks <==> t in b.tasks;
    assert forall e :: e in a.executions <==> e in b.executions;
  }

  lemma {:induction false} ReapExecutionsEffect(db: DB, executions: seq<Id>, now: int)
    requires Inv(db)
    ensures ReapExecutions(db, executions, now) == Reaped(db, executions, [], now)
    decreases |executions|
  {
    if executions == [] {
      assert Reaped(db, [], [], now) == db;
    } else {
      var id, rest := executions[0], executions[1..];
      ReapExecutionKeeps(db, id, now);
      ReapOneThenRest(db, id, rest, now);
      var next := ReapExecution(db, id, now).db;
      ReapExecutionsEffect(next, rest, now);
      assert executions == [id] + rest;
      SameReaped(next, db, rest, executions, [], [], now);
    }
  }

  lemma ReapOpenThenRest(db: DB, id: Id, rest: seq<Id>, now: int)
    ensures var next := ReapOpen(db, id, now).db;
            && next.tasks.Keys == db.tasks.Keys && next.executions == db.executions
            && (forall t :: t in db.tasks ==> ReapedTask(next, t, [], rest, now) == ReapedTask(db, t, [], [id] + rest, now))
  {
    var next := ReapOpen(db, id, now).db;
    assert next.tasks.Keys == db.tasks.Keys;
  }

  lemma {:induction false} ReapOpensEffect(db: DB, tasks: seq<Id>, now: int)
    ensures ReapOpens(db, tasks, now) == Reaped(db, [], tasks, now)
    decreases |tasks|
  {
    if tasks == [] {
      assert Reaped(db, [], [], now) == db;
    } else {
      var next := ReapOpen(db, tasks[0], now).db;
      ReapOpensEffect(next, tasks[1..], now);
      ReapOpenThenRest(db, tasks[0], tasks[1..], now);
      assert tasks == [tasks[0]] + tasks[1..];
      SameReaped(next, db, [], [], tasks[1..], tasks, now);
    }
  }

  predicate Candidates(db: DB, executions: seq<Id>, tasks: seq<Id>, now: int) {
    && (forall i :: 0 <= i < |executions| ==> ExecutionDue(db, executions[i], now))
    && (forall i :: 0 <= i < |tasks| ==> TaskDue(db, tasks[i], now))
  }

  /** The second loop's candidates are open and unattached, so the first loop leaves them to it. */
  lemma ReapedTwice(db: DB, executions: seq<Id>, tasks: seq<Id>, now: int, t: Id)
    requires Candidates(db, executions, tasks, now) && t in db.tasks
    ensures ReapedTask(Reaped(db, executions, [], now), t, [], tasks, now) == ReapedTask(db, t, executions, tasks, now)
  {
    if t in tasks {
      var i :| 0 <= i < |tasks| && tasks[i] == t;
      assert TaskDue(db, tasks[i], now);
    }
  }

  /** The two loops together leave exactly the closed form, whatever the order of the candidates. */
  lemma ReapEffect(db: DB, executions: seq<Id>, tasks: seq<Id>, now: int)
    requires Inv(db) && Candidates(db, executions, tasks, now)
    ensures ReapTx(db, executions, tasks, now) == Reaped(db, executions, tasks, now)
  {
    ReapExecutionsEffect(db, executions, now);
    var mid := Reaped(db, executions, [], now);
    ReapOpensEffect(mid, tasks, now);
    forall t | t in db.tasks {
      ReapedTwice(db, executions, tasks, now, t);
    }
    SameReaped(mid, db, [], executions, tasks, tasks, now);
  }

  // ------------------------------------------------------------------- safety

  /** No instant admits both a heartbeat or start and a reap of the same execution. */
  lemma WorkExcludesReaping(db: DB, id: Id, m: Mutation, now: int)
    requires Inv(db) && id in db.executions && MutateOnFresh(db, id, m, now).Ok?
    ensures !ExecutionDue(db, id, now)
  {
  }

  /** The new status of an execution that a transaction other than a cancel or a reap leaves expired. */
  lemma WorkNeverExpires(db: DB, id: Id, m: Mutation, now: int, e: Id)
    requires Execute(MutateOp(id, m, now), db, db, db).Ok? && e in db.executions && db.executions[e].state.status != Expired
    ensures var r := Execute(MutateOp(id, m, now), db, db, db).value; e in r.executions && r.executions[e].state.status != Expired
  {
  }

  lemma NotifyNeverExpires(db: DB, id: Id, intent: Intent, actor: Actor, now: int, e: Id)
    requires Execute(NotifyOp(id, intent, actor, now), db, db, db).Ok? && Allowed(NotifyOp(id, intent, actor, now), db, db)
    requires e in db.executions && db.executions[e].state.status != Expired
    ensures var r := Execute(NotifyOp(id, intent, actor, now), db, db, db).value; e in r.executions && r.executions[e].state.status != Expired
  {
  }

  lemma ReviewNeverExpires(db: DB, id: Id, decision: Decision, reviewerId: string, now: int, e: Id)
    requires Execute(ReviewOp(id, decision, reviewerId, now), db, db, db).Ok?
    requires e in db.executions && db.executions[e].state.status != Expired
    ensures var r := Execute(ReviewOp(id, decision, reviewerId, now), db, db, db).value; e in r.executions && r.executions[e].state.status != Expired
  {
  }

  /** Only the reaper expires an execution, and only past its hard lease or its task's deadline. */
  lemma ExpiryIsDue(op: Op, db: DB, e: Id)
    requires Inv(db) && Allowed(op, db, db) && Execute(op, db, db, db).Ok?
    requires e in db.executions && db.executions[e].state.status != Expired
    requires e in Execute(op, db, db, db).value.executions
    requires Execute(op, db, db, db).value.executions[e].state.status == Expired
    ensures op.ReapOp? && ExecutionDue(db, e, op.now)
  {
    match op
    case ReapOp(executions, tasks, now) =>
      ReapEffect(db, executions, tasks, now);
      assert e in executions;
      var i :| 0 <= i < |executions| && executions[i] == e;
      assert ExecutionDue(db, executions[i], now);
    case CancelOp(taskId, listed, agentId, now) => CancelEffect(db, taskId, listed, agentId, now);
    case MutateOp(id, m, now) => WorkNeverExpires(db, id, m, now, e);
    case NotifyOp(id, intent, actor, now) => NotifyNeverExpires(db, id, intent, actor, now, e);
    case ReviewOp(id, decision, reviewerId, now) => ReviewNeverExpires(db, id, decision, reviewerId, now, e);
    case _ =>
  }

  /**
   A task expires only at or after its deadline; it reopens only before it, and then exactly its own
   attached execution, which was due, expires in the same batch.
   */
  lemma TaskReleaseIsDue(op: Op, db: DB, t: Id)
    requires Inv(db) && Allowed(op, db, db) && Execute(op, db, db, db).Ok?
    requires t in db.tasks && t in Execute(op, db, db, db).value.tasks
    ensures var before, after := db.tasks[t], Execute(op, db, db, db).value.tasks[t];
            && (after.status == TaskExpired && before.status != TaskExpired ==> op.ReapOp? && before.deadline <= op.now)
            && (after.status == Open && before.status in {Claimed, InProgress} ==>
                  && op.ReapOp? && op.now < before.deadline
                  && Holds(db, t, before.active) && ExecutionDue(db, before.active.value, op.now)
                  && forall e :: e in db.executions && db.executions[e].state.taskId == t ==>
                       e in Execute(op, db, db, db).value.executions &&
                       (e == before.active.value <==> Execute(op, db, db, db).value.executions[e] != db.executions[e]))
  {
    assert TaskOk(db, t);
    match op
    case ReapOp(executions, tasks, now) => ReapReleaseIsDue(db, executions, tasks, now, t);
    case CancelOp(taskId, listed, agentId, now) => CancelEffect(db, taskId, listed, agentId, now);
    case _ =>
  }

  lemma ReapReleaseIsDue(db: DB, executions: seq<Id>, tasks: seq<Id>, now: int, t: Id)
    requires Inv(db) && Candidates(db, executions, tasks, now) && t in db.tasks
    ensures var r := ReapTx(db, executions, tasks, now);
            && r == Reaped(db, executions, tasks, now)
            && (r.tasks[t].status == TaskExpired && db.tasks[t].status != TaskExpired ==> db.tasks[t].deadline <= now)
            && (r.tasks[t].status == Open && db.tasks[t].status in {Claimed, InProgress} ==>
                  && now < db.tasks[t].deadline
                  && Holds(db, t, db.tasks[t].active) && ExecutionDue(db, db.tasks[t].active.value, now)
                  && forall e :: e in db.executions && db.executions[e].state.taskId == t ==>
                       (e == db.tasks[t].active.value <==> r.executions[e] != db.executions[e]))
  {
    ReapEffect(db, executions, tasks, now);
    assert TaskOk(db, t);
    if Detached(db, t, executions) {
      var active := db.tasks[t].active.value;
      var i :| 0 <= i < |executions| && executions[i] == active;
      assert ExecutionDue(db, executions[i], now);
      forall e | e in db.executions && db.executions[e].state.taskId == t && e != active
        ensures !IsLive(db.executions[e].state.status)
      {
        assert IsActiveOn(db, active, t);
        assert !IsActiveOn(db, e, t);
      }
    }
    if t in tasks {
      var i :| 0 <= i < |tasks| && tasks[i] == t;
      assert TaskDue(db, tasks[i], now);
    }
  }

  // ----------------------------------------------------------------- draining

  function DueExecutions(db: DB, now: int): set<Id> {
    set e | e in db.executions && ExecutionDue(db, e, now)
  }

  function DueTasks(db: DB, now: int): set<Id> {
    set t | t in db.tasks && TaskDue(db, t, now)
  }

  function Elements(s: seq<Id>): set<Id> {
    set i | 0 <= i < |s| :: s[i]
  }

  /** What the two locking SELECTs return when no row is locked: due rows, as many as the limit allows. */
  predicate IsBatch(db: DB, limit: nat, executions: seq<Id>, tasks: seq<Id>, now: int) {
    && Candidates(db, executions, tasks, now) && Distinct(executions) && Distinct(tasks)
    && |executions| == Min(limit, |DueExecutions(db, now)|)
    && |tasks| == Min(limit, |DueTasks(db, now)|)
  }

  lemma DueExecutionsAfter(db: DB, executions: seq<Id>, tasks: seq<Id>, now: int)
    ensures DueExecutions(Reaped(db, executions, tasks, now), now) == DueExecutions(db, now) - Elements(executions)
  {
    forall e
      ensures e in DueExecutions(Reaped(db, executions, tasks, now), now) <==> e in DueExecutions(db, now) && e !in executions
      ensures e in executions <==> e in Elements(executions)
    {
    }
  }

  lemma DueTasksAfter(db: DB, executions: seq<Id>, tasks: seq<Id>, now: int)
    requires Inv(db)
    ensures DueTasks(Reaped(db, executions, tasks, now), now) == DueTasks(db, now) - Elements(tasks)
  {
    forall t
      ensures t in DueTasks(Reaped(db, executions, tasks, now), now) <==> t in DueTasks(db, now) && t !in tasks
      ensures t in tasks <==> t in Elements(tasks)
    {
      assert t in db.tasks ==> TaskOk(db, t);
    }
  }

  /** A batch removes from the due sets exactly what it selected, and adds nothing to them. */
  lemma BatchRemovesSelected(db: DB, executions: seq<Id>, tasks: seq<Id>, now: int)
    requires Inv(db) && Candidates(db, executions, tasks, now)
    ensures var r := ReapTx(db, executions, tasks, now);
            && Inv(r)
            && DueExecutions(r, now) == DueExecutions(db, now) - Elements(executions)
            && DueTasks(r, now) == DueTasks(db, now) - Elements(tasks)
  {
    ReapKeeps(db, executions, tasks, now);
    ReapEffect(db, executions, tasks, now);
    DueExecutionsAfter(db, executions, tasks, now);
    DueTasksAfter(db, executions, tasks, now);
  }

  lemma {:induction false} DistinctCount(s: seq<Id>)
    requires Distinct(s)
    ensures |Elements(s)| == |s|
  {
    if s != [] {
      var last := |s| - 1;
      DistinctCount(s[..last]);
      assert s[last] !in Elements(s[..last]);
      assert Elements(s) == Elements(s[..last]) + {s[last]};
    }
  }

  lemma RemovedCount(due: set<Id>, s: seq<Id>, limit: nat)
    requires Distinct(s) && Elements(s) <= due && |s| == Min(limit, |due|)
    ensures |due - Elements(s)| == |due| - Min(limit, |due|)
  {
    DistinctCount(s);
  }

  predicate IsDrain(states: seq<DB>, batches: seq<(seq<Id>, seq<Id>)>, limit: nat, now: int) {
    && |states| == |batches| + 1
    && forall i :: 0 <= i < |batches| ==>
         && IsBatch(states[i], limit, batches[i].0, batches[i].1, now)
         && states[i + 1] == ReapTx(states[i], batches[i].0, batches[i].1, now)
  }

  function Left(due: nat, batches: nat, limit: nat): nat {
    if due <= batches * limit then 0 else due - batches * limit
  }

  lemma LeftAfter(due: nat, n: nat, limit: nat)
    ensures Left(due, n, limit) - Min(limit, Left(due, n, limit)) == Left(due, n + 1, limit)
  {
    assert (n + 1) * limit == n * limit + limit;
  }

  /**
   Repeated batches at one instant drain the due rows at the full rate: after n batches exactly
   n * limit of each kind are gone, or none is left.
   */
  lemma {:induction false} BatchesDrain(states: seq<DB>, batches: seq<(seq<Id>, seq<Id>)>, limit: nat, now: int, n: nat)
    requires 0 < |states| && Inv(states[0]) && IsDrain(states, batches, limit, now) && n < |states|
    ensures Inv(states[n])
    ensures |DueExecutions(states[n], now)| == Left(|DueExecutions(states[0], now)|, n, limit)
    ensures |DueTasks(states[n], now)| == Left(|DueTasks(states[0], now)|, n, limit)
  {
    if n > 0 {
      BatchesDrain(states, batches, limit, now, n - 1);
      var db, batch := states[n - 1], batches[n - 1];
      assert IsBatch(db, limit, batch.0, batch.1, now);
      BatchRemovesSelected(db, batch.0, batch.1, now);
      SelectedAreDue(db, batch.0, batch.1, now);
      RemovedCount(DueExecutions(db, now), batch.0, limit);
      RemovedCount(DueTasks(db, now), batch.1, limit);
      LeftAfter(|DueExecutions(states[0], now)|, n - 1, limit);
      LeftAfter(|DueTasks(states[0], now)|, n - 1, limit);
    }
  }

  lemma SelectedAreDue(db: DB, executions: seq<Id>, tasks: seq<Id>, now: int)
    requires Candidates(db, executions, tasks, now)
    ensures Elements(executions) <= DueExecutions(db, now) && Elements(tasks) <= DueTasks(db, now)
  {
  }
}

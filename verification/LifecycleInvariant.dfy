/**
 What every lifecycle transaction keeps, first for a transaction that runs on the current tables and
 then for one that committed on stale reads.
 */
module LifecycleInvariant {
  import opened Common
  import opened Domain
  import opened Lifecycle

  predicate SystemCancelled(task: TaskRow) {
    task.status == TaskCancelled && task.publisherId == SYSTEM_PUBLISHER
  }

  predicate PastLeased(s: ExecutionStatus) { s !in {Leased, Expired, Cancelled} }

  predicate Holds(db: DB, taskId: Id, active: Option<Id>) {
    active.Some? && active.value in db.executions && db.executions[active.value].state.taskId == taskId
  }

  /** What a task's status says about the execution it points to. */
  predicate TaskOk(db: DB, id: Id)
    requires id in db.tasks
  {
    var task := db.tasks[id];
    match task.status
    case Draft | Open | TaskCancelled | TaskExpired => task.active == None
    case Claimed => Holds(db, id, task.active) && db.executions[task.active.value].state.status == Leased
    case InProgress => Holds(db, id, task.active) && PastLeased(db.executions[task.active.value].state.status)
    case Completed => Holds(db, id, task.active) && db.executions[task.active.value].state.status == Accepted
  }

  /** An active execution is its task's own, or was orphaned when the system cancelled the task. */
  predicate ExecutionOk(db: DB, id: Id)
    requires id in db.executions
  {
    var e := db.executions[id].state;
    && e.taskId in db.tasks
    && (IsActive(e.status) ==> Attached(db, id, e.taskId) || SystemCancelled(db.tasks[e.taskId]))
  }

  ghost predicate OneActive(db: DB) {
    forall taskId, d, e :: IsActiveOn(db, d, taskId) && IsActiveOn(db, e, taskId) ==> d == e
  }

  ghost predicate Inv(db: DB) {
    && (forall t :: t in db.tasks ==> TaskOk(db, t))
    && (forall e :: e in db.executions ==> ExecutionOk(db, e))
    && OneActive(db)
  }

  // ---------------------------------------------------------- rows only grow

  predicate IsFinal(s: TaskStatus) { s in {Completed, TaskCancelled, TaskExpired} }

  predicate TaskGrows(a: TaskRow, b: TaskRow) {
    && a.publisherId == b.publisherId && a.deadline == b.deadline
    && (a == b || (a.version < b.version && !IsFinal(a.status)))
  }

  /** Versions tell rows apart, terminal rows are final, statuses climb, generations do not fall. */
  predicate ExecutionGrows(a: ExecutionRow, b: ExecutionRow) {
    && a.state.taskId == b.state.taskId && a.state.agentId == b.state.agentId
    && (a == b || (a.version < b.version && !IsTerminal(a.state.status)))
    && (a.state.status == b.state.status || Rank(a.state.status) < Rank(b.state.status))
    && a.state.lease.generation <= b.state.lease.generation
    && (a.state.lease.generation == b.state.lease.generation ==> a.state.lease == b.state.lease)
    && (a.startedAt.Some? ==> b.startedAt == a.startedAt)
    && (a.submittedAt.Some? ==> b.submittedAt == a.submittedAt)
  }

  predicate Grows(a: DB, b: DB) {
    && (forall t :: t in a.tasks ==> t in b.tasks && TaskGrows(a.tasks[t], b.tasks[t]))
    && (forall e :: e in a.executions ==> e in b.executions && ExecutionGrows(a.executions[e], b.executions[e]))
    && (forall e :: e in b.executions && e !in a.executions ==> Bumped(a, b, b.executions[e].state.taskId))
  }

  /** A new execution always comes with a new version of its task. */
  predicate Bumped(a: DB, b: DB, taskId: Id) {
    taskId in a.tasks && taskId in b.tasks ==> a.tasks[taskId].version < b.tasks[taskId].version
  }

  lemma GrowsReflexive(a: DB)
    ensures Grows(a, a)
  {
  }

  lemma GrowsTransitive(a: DB, b: DB, c: DB)
    requires Grows(a, b) && Grows(b, c)
    ensures Grows(a, c)
  {
    forall t | t in a.tasks
      ensures t in c.tasks && TaskGrows(a.tasks[t], c.tasks[t])
    {
      assert TaskGrows(b.tasks[t], c.tasks[t]);
    }
    forall e | e in a.executions
      ensures e in c.executions && ExecutionGrows(a.executions[e], c.executions[e])
    {
      assert ExecutionGrows(b.executions[e], c.executions[e]);
    }
    forall e | e in c.executions && e !in a.executions
      ensures Bumped(a, c, c.executions[e].state.taskId)
    {
      var t := c.executions[e].state.taskId;
      assert t in a.tasks ==> TaskGrows(a.tasks[t], b.tasks[t]) && TaskGrows(b.tasks[t], c.tasks[t]);
      assert e in b.executions ==> ExecutionGrows(b.executions[e], c.executions[e]) && Bumped(a, b, t);
    }
  }

  // ----------------------------------------------- transactions on fresh reads

  /** One task row replaced and at most one execution row replaced. */
  predicate Touches(a: DB, b: DB, taskId: Id, id: Id) {
    && taskId in b.tasks && b.tasks == a.tasks[taskId := b.tasks[taskId]]
    && id in b.executions && b.executions == a.executions[id := b.executions[id]]
    && b.executions[id].state.taskId == taskId
    && (taskId in a.tasks ==> TaskGrows(a.tasks[taskId], b.tasks[taskId]))
    && (if id in a.executions then ExecutionGrows(a.executions[id], b.executions[id]) else Bumped(a, b, taskId))
  }

  /** The local obligations that keep the invariant when one task and one of its executions change together. */
  lemma PairKeeps(a: DB, b: DB, taskId: Id, id: Id)
    requires Inv(a) && Touches(a, b, taskId, id)
    requires TaskOk(b, taskId) && ExecutionOk(b, id)
    requires IsActive(b.executions[id].state.status) ==>
               IsActiveOn(a, id, taskId) || IndexAllows(a, taskId)
    requires forall e :: e != id && IsActiveOn(a, e, taskId) ==> SystemCancelled(b.tasks[taskId]) || Attached(b, e, taskId)
    ensures Inv(b) && Grows(a, b)
  {
    forall t | t in b.tasks
      ensures TaskOk(b, t)
    {
      if t != taskId {
        assert TaskOk(a, t);
      }
    }
    forall e | e in b.executions
      ensures ExecutionOk(b, e)
    {
      if e != id {
        assert ExecutionOk(a, e);
      }
    }
    forall t, d, e | IsActiveOn(b, d, t) && IsActiveOn(b, e, t)
      ensures d == e
    {
      assert d != id ==> IsActiveOn(a, d, t);
      assert e != id ==> IsActiveOn(a, e, t);
      assert t == taskId && d == id && IndexAllows(a, taskId) ==> e == id;
      assert t == taskId && e == id && IndexAllows(a, taskId) ==> d == id;
    }
  }

  /** The same when a task row changes alone. */
  lemma TaskKeeps(a: DB, b: DB, taskId: Id)
    requires Inv(a) && b.executions == a.executions
    requires taskId in b.tasks && b.tasks == a.tasks[taskId := b.tasks[taskId]]
    requires taskId in a.tasks ==> TaskGrows(a.tasks[taskId], b.tasks[taskId])
    requires TaskOk(b, taskId)
    requires forall e :: IsActiveOn(a, e, taskId) ==> SystemCancelled(b.tasks[taskId]) || Attached(b, e, taskId)
    ensures Inv(b) && Grows(a, b)
  {
    forall t | t in b.tasks
      ensures TaskOk(b, t)
    {
      if t != taskId {
        assert TaskOk(a, t);
      }
    }
    forall e | e in b.executions
      ensures ExecutionOk(b, e)
    {
      assert ExecutionOk(a, e);
    }
    forall t, d, e | IsActiveOn(b, d, t) && IsActiveOn(b, e, t)
      ensures d == e
    {
      assert IsActiveOn(a, d, t) && IsActiveOn(a, e, t);
    }
  }

  lemma PublishKeeps(db: DB, id: Id, publisherId: string, deadline: int, content: string, now: int)
    requires Inv(db) && PublishTx(db, id, publisherId, deadline, content, now).Ok?
    ensures var r := PublishTx(db, id, publisherId, deadline, content, now).value; Inv(r) && Grows(db, r)
  {
    var r := PublishTx(db, id, publisherId, deadline, content, now).value;
    forall e
      ensures !IsActiveOn(db, e, id)
    {
      assert e in db.executions ==> ExecutionOk(db, e);
    }
    TaskKeeps(db, r, id);
  }

  /** An open task has no active execution, so the claim's insert cannot hit the partial unique index. */
  lemma OpenMeansFree(db: DB, taskId: Id)
    requires Inv(db) && taskId in db.tasks && db.tasks[taskId].status in {Draft, Open, TaskExpired, Completed}
    ensures IndexAllows(db, taskId)
  {
    forall e | e in db.executions && db.executions[e].state.taskId == taskId
      ensures !IsActive(db.executions[e].state.status)
    {
      assert ExecutionOk(db, e);
    }
  }

  /** A claim on current rows succeeds exactly when the task is open, its deadline ahead and the names usable. */
  lemma ClaimSucceedsIff(db: DB, taskId: Id, agentId: string, newId: Id, now: int)
    requires Inv(db) && taskId in db.tasks && newId !in db.executions
    ensures ClaimTx(db, GetTask(db, taskId).value, agentId, newId, now).Ok? <==>
              && db.tasks[taskId].status == Open && now < db.tasks[taskId].deadline
              && agentId != "" && newId != "" && taskId != ""
  {
    if db.tasks[taskId].status == Open {
      OpenMeansFree(db, taskId);
    }
  }

  lemma ClaimKeeps(db: DB, taskId: Id, agentId: string, newId: Id, now: int)
    requires Inv(db) && taskId in db.tasks && ClaimTx(db, GetTask(db, taskId).value, agentId, newId, now).Ok?
    ensures var r := ClaimTx(db, GetTask(db, taskId).value, agentId, newId, now).value;
            && Inv(r) && Grows(db, r)
            && newId !in db.executions && r.executions.Keys == db.executions.Keys + {newId}
  {
    var r := ClaimTx(db, GetTask(db, taskId).value, agentId, newId, now).value;
    OpenMeansFree(db, taskId);
    assert r.tasks[taskId].status == Claimed && r.executions[newId].state.status == Leased;
    PairKeeps(db, r, taskId, newId);
  }

  /** The task row a Start writes already points at the execution: only status and version move. */
  lemma MutateKeeps(db: DB, id: Id, m: Mutation, now: int)
    requires Inv(db) && id in db.executions
    requires MutateOnFresh(db, id, m, now).Ok?
    ensures var r := MutateOnFresh(db, id, m, now).value;
            var taskId := db.executions[id].state.taskId;
            && Inv(r) && Grows(db, r)
            && r.tasks == (if m.starts
                           then db.tasks[taskId := db.tasks[taskId].(status := InProgress, version := db.tasks[taskId].version + 1)]
                           else db.tasks)
            && (m.starts ==> db.tasks[taskId].active == Some(id))
  {
    var r := MutateOnFresh(db, id, m, now).value;
    var taskId := db.executions[id].state.taskId;
    assert ExecutionOk(db, id) && TaskOk(db, taskId);
    PairKeeps(db, r, taskId, id);
  }

  function MutateOnFresh(db: DB, id: Id, m: Mutation, now: int): Result<DB>
    requires id in db.executions
  {
    var record := GetTask(db, db.executions[id].state.taskId);
    if record.Err? then Err(record.code) else MutateTx(db, id, db.executions[id], record.value, m, now)
  }

  lemma NotifyKeeps(db: DB, id: Id, intent: Intent, actor: Actor, now: int)
    requires Inv(db) && id in db.executions && intent in {Submit, StartValidation, FailValidation, MarkReviewing, SubmitForReview}
    requires NotifyTx(db, id, db.executions[id], intent, actor, now).Ok?
    ensures var r := NotifyTx(db, id, db.executions[id], intent, actor, now).value; Inv(r) && Grows(db, r) && r.tasks == db.tasks
  {
    var r := NotifyTx(db, id, db.executions[id], intent, actor, now).value;
    var taskId := db.executions[id].state.taskId;
    assert ExecutionOk(db, id) && TaskOk(db, taskId);
    PairKeeps(db, r, taskId, id);
  }

  lemma ReviewKeeps(db: DB, id: Id, d: Decision, reviewerId: string, now: int)
    requires Inv(db) && id in db.executions
    requires ReviewTx(db, id, db.executions[id], GetTask(db, db.executions[id].state.taskId), d, reviewerId, now).Ok?
    ensures var r := ReviewTx(db, id, db.executions[id], GetTask(db, db.executions[id].state.taskId), d, reviewerId, now).value;
            Inv(r) && Grows(db, r)
  {
    var r := ReviewTx(db, id, db.executions[id], GetTask(db, db.executions[id].state.taskId), d, reviewerId, now).value;
    var taskId := db.executions[id].state.taskId;
    assert ExecutionOk(db, id) && TaskOk(db, taskId);
    PairKeeps(db, r, taskId, id);
  }

  lemma SystemCancelKeeps(db: DB, taskId: Id, now: int)
    requires Inv(db) && taskId in db.tasks && SystemCancelTx(db, GetTask(db, taskId).value, now).Ok?
    ensures var r := SystemCancelTx(db, GetTask(db, taskId).value, now).value; Inv(r) && Grows(db, r)
  {
    TaskKeeps(db, SystemCancelTx(db, GetTask(db, taskId).value, now).value, taskId);
  }

  lemma ContentKeeps(db: DB, taskId: Id, content: string)
    requires Inv(db) && taskId in db.tasks && ContentTx(db, GetTask(db, taskId).value, content).Ok?
    ensures var r := ContentTx(db, GetTask(db, taskId).value, content).value;
            && Inv(r) && Grows(db, r) && r.executions == db.executions
            && r.tasks[taskId].status == db.tasks[taskId].status && r.tasks[taskId].active == db.tasks[taskId].active
  {
    assert TaskOk(db, taskId);
    OpenOrElse(db, taskId);
    TaskKeeps(db, ContentTx(db, GetTask(db, taskId).value, content).value, taskId);
  }

  lemma OpenOrElse(db: DB, taskId: Id)
    requires Inv(db) && taskId in db.tasks
    ensures db.tasks[taskId].status in {Draft, Open} ==> forall e :: !IsActiveOn(db, e, taskId)
  {
    if db.tasks[taskId].status in {Draft, Open} {
      OpenMeansFree(db, taskId);
    }
    forall e | IsActiveOn(db, e, taskId)
      ensures Attached(db, e, taskId) || SystemCancelled(db.tasks[taskId])
    {
      assert ExecutionOk(db, e);
    }
  }

  // -------------------------------------------------------------- cancelling

  function CancelledRow(row: ExecutionRow): ExecutionRow {
    row.(state := row.state.(status := Cancelled), version := row.version + 1)
  }

  /** Every execution in `ids` cancelled, the others untouched. */
  function CancelledIn(executions: map<Id, ExecutionRow>, ids: seq<Id>): map<Id, ExecutionRow> {
    map e | e in executions :: if e in ids then CancelledRow(executions[e]) else executions[e]
  }

  /** The cancel loop never meets a state conflict: it cancels exactly the listed executions. */
  lemma {:induction false} CancelAllEffect(db: DB, seen: DB, listed: seq<Id>, actor: Actor, now: int)
    requires MayCancel(actor)
    requires forall i :: 0 <= i < |listed| ==>
      && listed[i] in db.executions && listed[i] in seen.executions
      && seen.executions[listed[i]] == db.executions[listed[i]]
      && IsActive(db.executions[listed[i]].state.status)
    requires forall i, j :: 0 <= i < j < |listed| ==> listed[i] != listed[j]
    ensures CancelAll(db, seen, listed, actor, now) == Ok(db.(executions := CancelledIn(db.executions, listed)))
    decreases |listed|
  {
    if listed == [] {
      assert CancelledIn(db.executions, []) == db.executions;
    } else {
      var row := db.executions[listed[0]];
      var w := UpdateExecution(db, listed[0], row.state.(status := Cancelled), row.version, now);
      assert w.db.executions == db.executions[listed[0] := CancelledRow(row)];
      CancelAllEffect(w.db, seen, listed[1..], actor, now);
      assert listed == [listed[0]] + listed[1..];
      assert CancelledIn(w.db.executions, listed[1..]) == CancelledIn(db.executions, listed);
    }
  }

  predicate MayCancelTask(task: TaskRow, agentId: string, now: int) {
    agentId != "" && agentId == task.publisherId && now < task.deadline && task.status in {Open, Claimed, InProgress}
  }

  /**
   A publisher's cancel on current rows: refused exactly when the publisher, deadline or status
   forbids it; otherwise it cancels the task and every active execution on it, and nothing else.
   */
  lemma CancelEffect(db: DB, taskId: Id, listed: seq<Id>, agentId: string, now: int)
    requires taskId in db.tasks && IsListing(db, taskId, listed)
    ensures var r := CancelTx(db, GetTask(db, taskId).value, db, listed, agentId, now);
            var task := db.tasks[taskId];
            if MayCancelTask(task, agentId, now) then
              r == Ok(DB(db.tasks[taskId := task.(status := TaskCancelled, version := task.version + 1, active := None)],
                         CancelledIn(db.executions, listed)))
            else r.Err?
  {
    if MayCancelTask(db.tasks[taskId], agentId, now) {
      forall i | 0 <= i < |listed|
        ensures IsActiveOn(db, listed[i], taskId)
      {
        assert listed[i] in listed;
      }
      CancelAllEffect(db, db, listed, Actor(Publisher, agentId), now);
    }
  }

  /** The tables after a publisher's cancel. */
  function CancelledDB(db: DB, taskId: Id, listed: seq<Id>): DB
    requires taskId in db.tasks
  {
    var task := db.tasks[taskId];
    DB(db.tasks[taskId := task.(status := TaskCancelled, version := task.version + 1, active := None)],
       CancelledIn(db.executions, listed))
  }

  lemma CancelledTasksOk(db: DB, taskId: Id, listed: seq<Id>, t: Id)
    requires Inv(db) && taskId in db.tasks && IsListing(db, taskId, listed) && t in db.tasks
    ensures TaskOk(CancelledDB(db, taskId, listed), t)
  {
    assert TaskOk(db, t);
    if t != taskId && db.tasks[t].active.Some? {
      assert db.tasks[t].active.value in listed ==> IsActiveOn(db, db.tasks[t].active.value, taskId);
    }
  }

  lemma CancelledExecutionsOk(db: DB, taskId: Id, listed: seq<Id>, e: Id)
    requires Inv(db) && taskId in db.tasks && IsListing(db, taskId, listed) && e in db.executions
    ensures ExecutionOk(CancelledDB(db, taskId, listed), e)
    ensures ExecutionGrows(db.executions[e], CancelledDB(db, taskId, listed).executions[e])
    ensures !IsActiveOn(CancelledDB(db, taskId, listed), e, taskId)
  {
    assert ExecutionOk(db, e);
    assert IsActiveOn(db, e, taskId) <==> e in listed;
  }

  lemma CancelledKeeps(db: DB, taskId: Id, listed: seq<Id>)
    requires Inv(db) && taskId in db.tasks && IsListing(db, taskId, listed) && !IsFinal(db.tasks[taskId].status)
    ensures var r := CancelledDB(db, taskId, listed); Inv(r) && Grows(db, r) && IndexAllows(r, taskId)
  {
    var r := CancelledDB(db, taskId, listed);
    forall t | t in db.tasks {
      CancelledTasksOk(db, taskId, listed, t);
    }
    forall e | e in db.executions {
      CancelledExecutionsOk(db, taskId, listed, e);
    }
    forall t, d, e | IsActiveOn(r, d, t) && IsActiveOn(r, e, t)
      ensures d == e
    {
      assert IsActiveOn(db, d, t) && IsActiveOn(db, e, t);
    }
  }

  lemma CancelKeeps(db: DB, taskId: Id, listed: seq<Id>, agentId: string, now: int)
    requires Inv(db) && taskId in db.tasks && IsListing(db, taskId, listed)
    requires CancelTx(db, GetTask(db, taskId).value, db, listed, agentId, now).Ok?
    ensures var r := CancelTx(db, GetTask(db, taskId).value, db, listed, agentId, now).value;
            Inv(r) && Grows(db, r) && IndexAllows(r, taskId)
  {
    CancelEffect(db, taskId, listed, agentId, now);
    assert CancelTx(db, GetTask(db, taskId).value, db, listed, agentId, now).value == CancelledDB(db, taskId, listed);
    CancelledKeeps(db, taskId, listed);
  }

  // ----------------------------------------------------------------- reaping

  lemma ReapExecutionKeeps(db: DB, id: Id, now: int)
    requires Inv(db)
    ensures Inv(ReapExecution(db, id, now).db) && Grows(db, ReapExecution(db, id, now).db)
  {
    if id in db.executions && IsLive(db.executions[id].state.status) {
      assert ExecutionOk(db, id);
      PairKeeps(db, ReapExecution(db, id, now).db, db.executions[id].state.taskId, id);
    }
  }

  lemma ReapOpenKeeps(db: DB, id: Id, now: int)
    requires Inv(db)
    ensures Inv(ReapOpen(db, id, now).db) && Grows(db, ReapOpen(db, id, now).db)
  {
    if ReapOpen(db, id, now).updated {
      OpenOrElse(db, id);
      TaskKeeps(db, ReapOpen(db, id, now).db, id);
    }
  }

  lemma {:induction false} ReapKeeps(db: DB, executions: seq<Id>, tasks: seq<Id>, now: int)
    requires Inv(db)
    ensures Inv(ReapTx(db, executions, tasks, now)) && Grows(db, ReapTx(db, executions, tasks, now))
    decreases |executions| + |tasks|
  {
    if executions != [] {
      var next := ReapExecution(db, executions[0], now).db;
      ReapExecutionKeeps(db, executions[0], now);
      ReapKeeps(next, executions[1..], tasks, now);
      GrowsTransitive(db, next, ReapTx(next, executions[1..], tasks, now));
    } else if tasks != [] {
      var next := ReapOpen(db, tasks[0], now).db;
      ReapOpenKeeps(db, tasks[0], now);
      ReapKeeps(next, [], tasks[1..], now);
      GrowsTransitive(db, next, ReapTx(next, [], tasks[1..], now));
    }
  }
}

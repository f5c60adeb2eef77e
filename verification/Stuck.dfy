/**
 Tasks that nothing but a cancel ever releases: in progress, with an execution that the reaper does
 not select and the state machine does not move on.
 */
module Stuck {
  import opened Common
  import opened Domain
  import opened Lifecycle
  import opened LifecycleInvariant
  import opened LifecycleRuns
  import opened LifecycleTheorems
  import opened Reaper

  /** The statuses of an execution that only a cancel could change, on a task still in progress. */
  predicate IsDeadEnd(s: ExecutionStatus) { s in {ValidationFailed, Rejected, RevisionRequested} }

  predicate IsStuck(db: DB, t: Id) {
    && t in db.tasks && db.tasks[t].status == InProgress && Holds(db, t, db.tasks[t].active)
    && IsDeadEnd(db.executions[db.tasks[t].active.value].state.status)
  }

  // ---------------------------------------------------------- what is selected

  /** Some reaper batch at `now` releases the task from its execution. */
  ghost predicate Releasable(db: DB, t: Id, now: int)
    requires t in db.tasks
  {
    exists executions, tasks :: Candidates(db, executions, tasks, now) && Reaps(db, executions, tasks, now, t)
  }

  ghost predicate ReleasableOnlyBefore(db: DB, t: Id, deadline: int)
    requires t in db.tasks
  {
    forall now :: Releasable(db, t, now) ==> now < deadline
  }

  predicate Reaps(db: DB, executions: seq<Id>, tasks: seq<Id>, now: int, t: Id)
    requires t in db.tasks
  {
    var after := ReapTx(db, executions, tasks, now);
    t in after.tasks && after.tasks[t] != db.tasks[t]
  }

  lemma ReleasedOnlyLive(db: DB, executions: seq<Id>, tasks: seq<Id>, now: int, t: Id)
    requires Inv(db) && t in db.tasks && db.tasks[t].status in {Claimed, InProgress}
    requires Candidates(db, executions, tasks, now) && Reaps(db, executions, tasks, now, t)
    ensures Holds(db, t, db.tasks[t].active) && IsLive(db.executions[db.tasks[t].active.value].state.status)
  {
    ReapEffect(db, executions, tasks, now);
    assert TaskOk(db, t);
  }

  lemma LiveIsReleased(db: DB, t: Id, now: int)
    requires Inv(db) && t in db.tasks && db.tasks[t].status in {Claimed, InProgress} && db.tasks[t].deadline <= now
    requires Holds(db, t, db.tasks[t].active) && IsLive(db.executions[db.tasks[t].active.value].state.status)
    ensures Candidates(db, [db.tasks[t].active.value], [], now) && Reaps(db, [db.tasks[t].active.value], [], now, t)
  {
    var executions := [db.tasks[t].active.value];
    assert ExecutionDue(db, executions[0], now);
    ReapEffect(db, executions, [], now);
    assert Detached(db, t, executions);
  }

  /**
   Past its deadline, a claimed or started task is selected for release, and released by some batch,
   if and only if its execution is leased or running.
   */
  lemma OverdueReleasedIff(db: DB, t: Id, now: int)
    requires Inv(db) && t in db.tasks && db.tasks[t].status in {Claimed, InProgress} && db.tasks[t].deadline <= now
    ensures Holds(db, t, db.tasks[t].active)
    ensures var status := db.executions[db.tasks[t].active.value].state.status;
            && (ExecutionDue(db, db.tasks[t].active.value, now) <==> IsLive(status))
            && (Releasable(db, t, now) <==> IsLive(status))
  {
    assert TaskOk(db, t);
    if IsLive(db.executions[db.tasks[t].active.value].state.status) {
      LiveIsReleased(db, t, now);
    } else {
      forall executions, tasks | Candidates(db, executions, tasks, now) ensures !Reaps(db, executions, tasks, now, t) {
        if Reaps(db, executions, tasks, now, t) {
          ReleasedOnlyLive(db, executions, tasks, now, t);
        }
      }
    }
  }

  // ----------------------------------------------------------- what releases it

  /** The task's own publisher, or the system for its own task, cancels before the deadline. */
  predicate Releases(op: Op, task: TaskRow, t: Id) {
    match op
    case CancelOp(taskId, _, agentId, now) => taskId == t && MayCancelTask(task, agentId, now)
    case SystemCancelOp(taskId, now) => taskId == t && MayCancelTask(task, SYSTEM_PUBLISHER, now)
    case _ => false
  }

  /** The task and its execution are exactly as they were. */
  predicate Untouched(before: DB, after: DB, t: Id) {
    && t in before.tasks && t in after.tasks && after.tasks[t] == before.tasks[t]
    && before.tasks[t].active.Some? && before.tasks[t].active.value in before.executions
    && before.tasks[t].active.value in after.executions
    && after.executions[before.tasks[t].active.value] == before.executions[before.tasks[t].active.value]
  }

  lemma UntouchedByReview(db: DB, id: Id, decision: Decision, reviewerId: string, now: int, t: Id)
    requires Inv(db) && IsStuck(db, t) && Execute(ReviewOp(id, decision, reviewerId, now), db, db, db).Ok?
    ensures Untouched(db, Execute(ReviewOp(id, decision, reviewerId, now), db, db, db).value, t)
  {
    assert ExecutionOk(db, id);
  }

  lemma UntouchedByReaping(db: DB, executions: seq<Id>, tasks: seq<Id>, now: int, t: Id)
    requires Inv(db) && IsStuck(db, t) && Candidates(db, executions, tasks, now)
    ensures Untouched(db, ReapTx(db, executions, tasks, now), t)
  {
    ReapEffect(db, executions, tasks, now);
  }

  lemma WorkWrites(db: DB, id: Id, m: Mutation, now: int)
    requires id in db.executions && MutateOnFresh(db, id, m, now).Ok?
    ensures var r := MutateOnFresh(db, id, m, now).value;
            && IsLive(db.executions[id].state.status) && id in r.executions && r.executions == db.executions[id := r.executions[id]]
            && (r.tasks == db.tasks || (m.starts && db.executions[id].state.taskId in r.tasks
                && r.tasks == db.tasks[db.executions[id].state.taskId := r.tasks[db.executions[id].state.taskId]]))
  {
  }

  lemma UntouchedByWork(db: DB, id: Id, m: Mutation, now: int, t: Id)
    requires IsStuck(db, t) && Execute(MutateOp(id, m, now), db, db, db).Ok?
    ensures Untouched(db, Execute(MutateOp(id, m, now), db, db, db).value, t)
  {
    ExecuteIsMutate(db, id, m, now);
    WorkWrites(db, id, m, now);
    if m.starts {
      StartNeedsClaim(db, id, m, now);
    }
  }

  lemma UntouchedByNotify(db: DB, id: Id, intent: Intent, actor: Actor, now: int, t: Id)
    requires IsStuck(db, t) && Allowed(NotifyOp(id, intent, actor, now), db, db)
    requires Execute(NotifyOp(id, intent, actor, now), db, db, db).Ok?
    ensures Untouched(db, Execute(NotifyOp(id, intent, actor, now), db, db, db).value, t)
  {
  }

  lemma UntouchedByCancel(db: DB, taskId: Id, listed: seq<Id>, agentId: string, now: int, t: Id)
    requires Inv(db) && IsStuck(db, t) && IsListing(db, taskId, listed)
    requires Execute(CancelOp(taskId, listed, agentId, now), db, db, db).Ok?
    requires !Releases(CancelOp(taskId, listed, agentId, now), db.tasks[t], t)
    ensures Untouched(db, Execute(CancelOp(taskId, listed, agentId, now), db, db, db).value, t)
  {
    CancelEffect(db, taskId, listed, agentId, now);
    var e := db.tasks[t].active.value;
    assert e in listed ==> IsActiveOn(db, e, taskId);
  }

  /** Every other transaction leaves a stuck task and its execution exactly as they are. */
  lemma StuckUntouched(op: Op, db: DB, t: Id)
    requires Inv(db) && Allowed(op, db, db) && Execute(op, db, db, db).Ok?
    requires IsStuck(db, t) && !Releases(op, db.tasks[t], t)
    ensures Untouched(db, Execute(op, db, db, db).value, t)
  {
    match op
    case ReapOp(executions, tasks, now) => UntouchedByReaping(db, executions, tasks, now, t);
    case ReviewOp(id, decision, reviewerId, now) => UntouchedByReview(db, id, decision, reviewerId, now, t);
    case MutateOp(id, m, now) => UntouchedByWork(db, id, m, now, t);
    case NotifyOp(id, intent, actor, now) => UntouchedByNotify(db, id, intent, actor, now, t);
    case CancelOp(taskId, listed, agentId, now) => UntouchedByCancel(db, taskId, listed, agentId, now, t);
    case _ =>
  }

  lemma ReleaseCancels(op: Op, db: DB, t: Id)
    requires Allowed(op, db, db) && IsStuck(db, t) && Releases(op, db.tasks[t], t)
    ensures Execute(op, db, db, db).Ok?
    ensures t in Execute(op, db, db, db).value.tasks && Execute(op, db, db, db).value.tasks[t].status == TaskCancelled
  {
    if op.CancelOp? {
      CancelEffect(db, t, op.listed, op.agentId, op.now);
    }
  }

  /** On current rows, a transaction changes a stuck task if and only if it is such a cancel, which cancels it. */
  lemma StuckChangesIff(op: Op, db: DB, t: Id)
    requires Inv(db) && Allowed(op, db, db) && IsStuck(db, t)
    ensures var after := After(Execute(op, db, db, db), db);
            && t in after.tasks
            && (after.tasks[t] != db.tasks[t] <==> Releases(op, db.tasks[t], t))
            && (Releases(op, db.tasks[t], t) ==> after.tasks[t].status == TaskCancelled)
            && (!Releases(op, db.tasks[t], t) ==> IsStuck(after, t))
  {
    if Releases(op, db.tasks[t], t) {
      ReleaseCancels(op, db, t);
    } else if Execute(op, db, db, db).Ok? {
      StuckUntouched(op, db, t);
    }
  }

  /** A step of a run that was accepted and is such a cancel. */
  ghost predicate ReleasedAt(states: seq<DB>, steps: seq<Step>, i: nat, task: TaskRow, t: Id)
    requires |states| == |steps| + 1 && i < |steps|
  {
    steps[i].taskReadAt <= i && steps[i].executionsReadAt <= i && Outcome(states, i, steps[i]).Ok? && Releases(steps[i].op, task, t)
  }

  lemma CancelCommits(op: Op, tdb: DB, edb: DB, db: DB, t: Id)
    requires (op.CancelOp? && op.taskId == t) || (op.SystemCancelOp? && op.taskId == t)
    requires Execute(op, tdb, edb, db).Ok?
    ensures t in Execute(op, tdb, edb, db).value.tasks && Execute(op, tdb, edb, db).value.tasks[t].status == TaskCancelled
  {
    if op.CancelOp? {
      var record := GetTask(tdb, t).value;
      var cancelled := CancelAll(db, edb, op.listed, Actor(Publisher, op.agentId), op.now);
      assert UpdateTask(cancelled.value, record, TaskCancelled, None).updated;
    }
  }

  /** The same over runs with stale reads: a step changes a stuck task if and only if it is an accepted cancel of that kind. */
  lemma StuckStepIff(states: seq<DB>, steps: seq<Step>, i: nat, t: Id)
    requires IsRun(states, steps) && i < |steps| && IsStuck(states[i], t)
    ensures t in states[i + 1].tasks
    ensures states[i + 1].tasks[t] != states[i].tasks[t] <==> ReleasedAt(states, steps, i, states[i].tasks[t], t)
    ensures ReleasedAt(states, steps, i, states[i].tasks[t], t) ==> states[i + 1].tasks[t].status == TaskCancelled
    ensures !ReleasedAt(states, steps, i, states[i].tasks[t], t) ==> IsStuck(states[i + 1], t)
  {
    assert StepAt(states, steps, i);
    InvAt(states, steps, i);
    if ReleasedAt(states, steps, i, states[i].tasks[t], t) {
      CancelCommits(steps[i].op, states[steps[i].taskReadAt], states[steps[i].executionsReadAt], states[i], t);
    } else if states[i + 1] != states[i] {
      EveryCommitIsSerial(states, steps, i);
      StuckChangesIff(steps[i].op, states[i], t);
    }
  }

  /**
   Over any run, however long past the deadline, a stuck task is still stuck and exactly as it was if
   and only if no cancel by its own publisher, or by the system of its own task, was accepted meanwhile.
   */
  lemma {:induction false} StuckUntilCancelled(states: seq<DB>, steps: seq<Step>, m: nat, n: nat, t: Id)
    requires IsRun(states, steps) && m <= n < |states| && IsStuck(states[m], t)
    ensures t in states[n].tasks
    ensures states[n].tasks[t] == states[m].tasks[t] <==> forall i :: m <= i < n ==> !ReleasedAt(states, steps, i, states[m].tasks[t], t)
    ensures states[n].tasks[t] == states[m].tasks[t] ==> IsStuck(states[n], t)
    ensures states[n].tasks[t] != states[m].tasks[t] ==> states[n].tasks[t].status == TaskCancelled
    decreases n - m
  {
    if m < n {
      var i := n - 1;
      StuckUntilCancelled(states, steps, m, i, t);
      if states[i].tasks[t] == states[m].tasks[t] {
        StuckStepIff(states, steps, i, t);
      } else {
        TerminalIsForever(states, steps, i, n);
      }
    }
  }

  // ---------------------------------------------------------------- reaching it

  const SYSTEM := Actor(System, "git")

  /** Submit and begin validation. */
  function ValidatingSteps(): seq<Step> {
    StartedSteps(1, 2) + [Step(NotifyOp("e", Submit, SYSTEM, 3), 3, 3), Step(NotifyOp("e", StartValidation, SYSTEM, 4), 4, 4)]
  }

  /** From there on to each of the dead ends: a failed validation, or a review that rejects or asks for a revision. */
  function EndingSteps(s: ExecutionStatus): seq<Step> {
    if s == ValidationFailed then [Step(NotifyOp("e", FailValidation, SYSTEM, 5), 5, 5)]
    else
      [Step(NotifyOp("e", MarkReviewing, SYSTEM, 5), 5, 5),
       Step(ReviewOp("e", if s == Rejected then DecideReject else DecideRevision, "reviewer", 6), 6, 6)]
  }

  lemma ReachValidating() returns (states: seq<DB>)
    ensures IsRun(states, ValidatingSteps()) && |states| == 6 && Reached(states[5], Validating)
  {
    states := ReachStarted(1, 2);
    var steps, more := StartedSteps(1, 2), ValidatingSteps()[3..];
    Extend(states, steps, more[0]);
    states, steps := states + [NextState(states, more[0])], steps + [more[0]];
    assert Reached(states[4], Submitted);
    Extend(states, steps, more[1]);
    states, steps := states + [NextState(states, more[1])], steps + [more[1]];
    assert steps == ValidatingSteps();
  }

  lemma ReachDeadEnd(s: ExecutionStatus) returns (states: seq<DB>)
    requires IsDeadEnd(s)
    ensures IsRun(states, ValidatingSteps() + EndingSteps(s)) && |states| > 0 && Reached(states[|states| - 1], s)
  {
    states := ReachValidating();
    var steps, ending := ValidatingSteps(), EndingSteps(s);
    Extend(states, steps, ending[0]);
    states, steps := states + [NextState(states, ending[0])], steps + [ending[0]];
    if s != ValidationFailed {
      assert Reached(states[6], Reviewing);
      Extend(states, steps, ending[1]);
      states, steps := states + [NextState(states, ending[1])], steps + [ending[1]];
    }
    assert steps == ValidatingSteps() + ending;
  }

  /**
   Every dead end is reached by a run, and once there no reaper batch releases the task, however far
   past the deadline.
   */
  lemma DeadEndsAreReached(s: ExecutionStatus) returns (states: seq<DB>)
    requires IsDeadEnd(s)
    ensures IsRun(states, ValidatingSteps() + EndingSteps(s))
    ensures IsStuck(states[|states| - 1], "t") && Reached(states[|states| - 1], s)
    ensures ReleasableOnlyBefore(states[|states| - 1], "t", 10 * LEASE_SPAN)
  {
    states := ReachDeadEnd(s);
    InvAt(states, ValidatingSteps() + EndingSteps(s), |states| - 1);
    DeadEndIsKept(states[|states| - 1], s);
  }

  lemma DeadEndIsKept(db: DB, s: ExecutionStatus)
    requires Inv(db) && IsDeadEnd(s) && Reached(db, s)
    ensures IsStuck(db, "t") && ReleasableOnlyBefore(db, "t", 10 * LEASE_SPAN)
  {
    forall now | Releasable(db, "t", now) ensures now < 10 * LEASE_SPAN {
      if 10 * LEASE_SPAN <= now {
        OverdueReleasedIff(db, "t", now);
      }
    }
  }
}

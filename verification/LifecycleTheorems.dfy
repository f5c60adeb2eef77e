/** What the run invariant means for claims, leases, cancellation and orphaned executions. */
module LifecycleTheorems {
  import opened Common
  import opened Domain
  import opened Lifecycle
  import opened LifecycleInvariant
  import opened LifecycleRuns

  /**
   An active execution is its task's current one exactly when the task has not been cancelled by the
   system; and a task never has two of them.
   */
  lemma ActiveMeansAttached(states: seq<DB>, steps: seq<Step>, n: nat, e: Id)
    requires IsRun(states, steps) && n < |states|
    requires e in states[n].executions && IsActive(states[n].executions[e].state.status)
    ensures var taskId := states[n].executions[e].state.taskId;
            && taskId in states[n].tasks
            && (Attached(states[n], e, taskId) <==> !SystemCancelled(states[n].tasks[taskId]))
            && (forall d :: IsActiveOn(states[n], d, taskId) ==> d == e)
  {
    InvAt(states, steps, n);
    assert ExecutionOk(states[n], e);
    assert IsActiveOn(states[n], e, states[n].executions[e].state.taskId);
  }

  /**
   In every reachable state a task's status says what it is attached to: an open task has no active
   execution at all, a claimed one points at a leased execution, one in progress at an execution past
   leased, a completed one at an accepted execution.
   */
  lemma TaskMatchesExecution(states: seq<DB>, steps: seq<Step>, n: nat, t: Id)
    requires IsRun(states, steps) && n < |states| && t in states[n].tasks
    ensures var db, task := states[n], states[n].tasks[t];
            && (task.status in {Draft, Open} ==> task.active == None && forall e :: !IsActiveOn(db, e, t))
            && (task.status in {Claimed, InProgress, Completed} ==>
                  Holds(db, t, task.active)
                  && var status := db.executions[task.active.value].state.status;
                     && (task.status == Claimed ==> status == Leased)
                     && (task.status == InProgress ==> status !in {Leased, Expired, Cancelled})
                     && (task.status == Completed ==> status == Accepted))
            && (task.status in {TaskCancelled, TaskExpired} ==> task.active == None)
  {
    InvAt(states, steps, n);
    assert TaskOk(states[n], t);
    OpenOrElse(states[n], t);
  }

  /** The task is claimed and points at the execution; a Start may only mark it in progress. */
  predicate PlainStart(db: DB, next: DB, id: Id) {
    && id in db.executions
    && var taskId := db.executions[id].state.taskId;
       && taskId in db.tasks
       && var task := db.tasks[taskId];
          && task.status == Claimed && task.active == Some(id)
          && next.tasks == db.tasks[taskId := task.(status := InProgress, version := task.version + 1)]
  }

  /** A committed Start moves its task from claimed to in progress and never redirects the active execution. */
  lemma StartNeverRedirects(states: seq<DB>, steps: seq<Step>, i: nat)
    requires IsRun(states, steps) && i < |steps| && states[i + 1] != states[i]
    requires steps[i].op.MutateOp? && steps[i].op.mutation.starts
    ensures PlainStart(states[i], states[i + 1], steps[i].op.executionId)
  {
    InvAt(states, steps, i);
    EveryCommitIsSerial(states, steps, i);
    StartEffect(states[i], states[i + 1], steps[i].op);
  }

  lemma InvAt(states: seq<DB>, steps: seq<Step>, n: nat)
    requires IsRun(states, steps) && n < |states|
    ensures Inv(states[n])
  {
    RunKeeps(states, steps, n);
  }

  lemma GrowsBetween(states: seq<DB>, steps: seq<Step>, m: nat, n: nat)
    requires IsRun(states, steps) && m <= n < |states|
    ensures Grows(states[m], states[n])
  {
    RunKeeps(states, steps, n);
  }

  lemma StartEffect(db: DB, next: DB, op: Op)
    requires Inv(db) && op.MutateOp? && op.mutation.starts && Execute(op, db, db, db) == Ok(next)
    ensures PlainStart(db, next, op.executionId)
  {
    ExecuteIsMutate(db, op.executionId, op.mutation, op.now);
    FreshStart(db, next, op.executionId, op.mutation, op.now);
  }

  lemma ExecuteIsMutate(db: DB, id: Id, m: Mutation, now: int)
    requires Execute(MutateOp(id, m, now), db, db, db).Ok?
    ensures id in db.executions && Execute(MutateOp(id, m, now), db, db, db) == MutateOnFresh(db, id, m, now)
  {
  }

  lemma FreshStart(db: DB, next: DB, id: Id, m: Mutation, now: int)
    requires Inv(db) && id in db.executions && m.starts && MutateOnFresh(db, id, m, now) == Ok(next)
    ensures PlainStart(db, next, id)
  {
    StartNeedsClaim(db, id, m, now);
    MutateKeeps(db, id, m, now);
  }

  lemma StartNeedsClaim(db: DB, id: Id, m: Mutation, now: int)
    requires id in db.executions && m.starts && MutateOnFresh(db, id, m, now).Ok?
    ensures var taskId := db.executions[id].state.taskId; taskId in db.tasks && db.tasks[taskId].status == Claimed
  {
  }

  lemma HeartbeatEffect(db: DB, id: Id, m: Mutation, now: int)
    requires !m.starts && Execute(MutateOp(id, m, now), db, db, db).Ok?
    ensures id in db.executions && db.executions[id].state.lease.generation == m.generation
    ensures var r := Execute(MutateOp(id, m, now), db, db, db).value;
            && r.tasks == db.tasks && id in r.executions && r.executions[id].state.lease == RenewLease(now, m.generation)
            && IsLive(r.executions[id].state.status)
  {
  }

  lemma HeartbeatAt(states: seq<DB>, steps: seq<Step>, i: nat)
    requires IsRun(states, steps) && i < |steps| && states[i + 1] != states[i]
    requires steps[i].op.MutateOp? && !steps[i].op.mutation.starts
    ensures var id, generation := steps[i].op.executionId, steps[i].op.mutation.generation;
            && id in states[i].executions && states[i].executions[id].state.lease.generation == generation
            && id in states[i + 1].executions && states[i + 1].executions[id].state.lease.generation == generation + 1
  {
    EveryCommitIsSerial(states, steps, i);
    HeartbeatEffect(states[i], steps[i].op.executionId, steps[i].op.mutation, steps[i].op.now);
  }

  /** Each lease generation authorises at most one heartbeat: later heartbeats carry larger generations. */
  lemma OneHeartbeatPerGeneration(states: seq<DB>, steps: seq<Step>, i: nat, j: nat)
    requires IsRun(states, steps) && i < j < |steps| && states[i + 1] != states[i] && states[j + 1] != states[j]
    requires steps[i].op.MutateOp? && steps[j].op.MutateOp? && steps[i].op.executionId == steps[j].op.executionId
    requires !steps[i].op.mutation.starts && !steps[j].op.mutation.starts
    ensures steps[i].op.mutation.generation < steps[j].op.mutation.generation
  {
    var id := steps[i].op.executionId;
    HeartbeatAt(states, steps, i);
    HeartbeatAt(states, steps, j);
    GrowsBetween(states, steps, i + 1, j);
    assert ExecutionGrows(states[i + 1].executions[id], states[j].executions[id]);
  }

  /** Finished executions and finished tasks never change again. */
  lemma TerminalIsForever(states: seq<DB>, steps: seq<Step>, m: nat, n: nat)
    requires IsRun(states, steps) && m <= n < |states|
    ensures forall e :: e in states[m].executions && IsTerminal(states[m].executions[e].state.status) ==>
              e in states[n].executions && states[n].executions[e] == states[m].executions[e]
    ensures forall t :: t in states[m].tasks && IsFinal(states[m].tasks[t].status) ==>
              t in states[n].tasks && states[n].tasks[t] == states[m].tasks[t]
  {
    GrowsBetween(states, steps, m, n);
    forall e | e in states[m].executions
      ensures e in states[n].executions && ExecutionGrows(states[m].executions[e], states[n].executions[e])
    {
    }
    forall t | t in states[m].tasks
      ensures t in states[n].tasks && TaskGrows(states[m].tasks[t], states[n].tasks[t])
    {
    }
  }

  /** After a publisher's cancel commits, its task has no active execution at any later point of the run. */
  lemma CancelIsFinal(states: seq<DB>, steps: seq<Step>, i: nat, n: nat)
    requires IsRun(states, steps) && i < |steps| && i < n < |states| && states[i + 1] != states[i]
    requires steps[i].op.CancelOp?
    ensures steps[i].op.taskId in states[n].tasks && states[n].tasks[steps[i].op.taskId].status == TaskCancelled
    ensures IndexAllows(states[n], steps[i].op.taskId)
  {
    InvAt(states, steps, i);
    EveryCommitIsSerial(states, steps, i);
    var op := steps[i].op;
    CancelKeeps(states[i], op.taskId, op.listed, op.agentId, op.now);
    CancelEffect(states[i], op.taskId, op.listed, op.agentId, op.now);
    TerminalIsForever(states, steps, i + 1, n);
    GrowsBetween(states, steps, i + 1, n);
    forall e | e in states[n].executions && states[n].executions[e].state.taskId == op.taskId
      ensures !IsActive(states[n].executions[e].state.status)
    {
      if IsActive(states[n].executions[e].state.status) {
        NoNewActive(states[i + 1], states[n], op.taskId, e);
      }
    }
  }

  // ---------------------------------------------------------- the hard expiry

  const LEASE_SPAN: nat := LEASE_DURATION + LEASE_GRACE

  predicate GrantsLease(op: Op) {
    op.ClaimOp? || (op.MutateOp? && !op.mutation.starts)
  }

  /** The clock readings of lease-granting transactions do not go back in commit order. */
  predicate LeaseClock(steps: seq<Step>) {
    forall i, j :: 0 <= i < j < |steps| && GrantsLease(steps[i].op) && GrantsLease(steps[j].op) ==> steps[i].op.now <= steps[j].op.now
  }

  /** A heartbeat moves the hard expiry back exactly when its clock reading is older than the lease it renews. */
  lemma HeartbeatExpiryIff(db: DB, id: Id, m: Mutation, now: int)
    requires Inv(db) && id in db.executions && !m.starts && MutateOnFresh(db, id, m, now).Ok?
    ensures var before := db.executions[id].state.lease;
            var after := MutateOnFresh(db, id, m, now).value.executions[id].state.lease;
            && after == Lease(before.generation + 1, now + LEASE_DURATION, now + LEASE_SPAN)
            && (before.hardExpiry <= after.hardExpiry <==> before.hardExpiry - LEASE_SPAN <= now)
  {
  }

  lemma WorkLeases(db: DB, id: Id, m: Mutation, now: int, e: Id)
    requires Execute(MutateOp(id, m, now), db, db, db).Ok? && e in Execute(MutateOp(id, m, now), db, db, db).value.executions
    ensures var lease := Execute(MutateOp(id, m, now), db, db, db).value.executions[e].state.lease;
            || (e in db.executions && lease == db.executions[e].state.lease)
            || (!m.starts && lease.hardExpiry == now + LEASE_SPAN)
  {
  }

  lemma ReviewLeases(db: DB, id: Id, decision: Decision, reviewerId: string, now: int, e: Id)
    requires Execute(ReviewOp(id, decision, reviewerId, now), db, db, db).Ok?
    requires e in Execute(ReviewOp(id, decision, reviewerId, now), db, db, db).value.executions
    ensures e in db.executions
    ensures Execute(ReviewOp(id, decision, reviewerId, now), db, db, db).value.executions[e].state.lease == db.executions[e].state.lease
  {
  }

  /** One commit either keeps an execution's lease or is the granting transaction that wrote it. */
  lemma LeaseChangesOnlyByGrant(op: Op, db: DB, e: Id)
    requires Inv(db) && Allowed(op, db, db) && Execute(op, db, db, db).Ok?
    requires e in Execute(op, db, db, db).value.executions
    ensures var lease := Execute(op, db, db, db).value.executions[e].state.lease;
            || (e in db.executions && lease == db.executions[e].state.lease)
            || (GrantsLease(op) && lease.hardExpiry == op.now + LEASE_SPAN)
  {
    match op
    case CancelOp(taskId, listed, agentId, now) => CancelEffect(db, taskId, listed, agentId, now);
    case ReapOp(executions, tasks, now) => ReapKeepsLeases(db, executions, tasks, now, e);
    case MutateOp(id, m, now) => WorkLeases(db, id, m, now, e);
    case ReviewOp(id, decision, reviewerId, now) => ReviewLeases(db, id, decision, reviewerId, now, e);
    case _ =>
  }

  lemma {:induction false} ReapKeepsLeases(db: DB, executions: seq<Id>, tasks: seq<Id>, now: int, e: Id)
    ensures var r := ReapTx(db, executions, tasks, now);
            && (e in r.executions <==> e in db.executions)
            && (e in db.executions ==> r.executions[e].state.lease == db.executions[e].state.lease)
    decreases |executions| + |tasks|
  {
    if executions != [] {
      ReapKeepsLeases(ReapExecution(db, executions[0], now).db, executions[1..], tasks, now, e);
    } else if tasks != [] {
      ReapKeepsLeases(ReapOpen(db, tasks[0], now).db, [], tasks[1..], now, e);
    }
  }

  lemma {:induction false} ExpiryBounded(states: seq<DB>, steps: seq<Step>, n: nat, e: Id, bound: int)
    requires IsRun(states, steps) && n < |states| && e in states[n].executions
    requires forall i :: 0 <= i < n && GrantsLease(steps[i].op) ==> steps[i].op.now <= bound
    ensures states[n].executions[e].state.lease.hardExpiry <= bound + LEASE_SPAN
  {
    if n > 0 {
      var i := n - 1;
      if states[n] == states[i] {
        ExpiryBounded(states, steps, i, e, bound);
      } else {
        InvAt(states, steps, i);
        EveryCommitIsSerial(states, steps, i);
        LeaseChangesOnlyByGrant(steps[i].op, states[i], e);
        if e in states[i].executions {
          ExpiryBounded(states, steps, i, e, bound);
        }
      }
    }
  }

  /** On a clock that does not go back, the hard expiry of a lease never moves back. */
  lemma {:induction false} ExpiryNeverMovesBack(states: seq<DB>, steps: seq<Step>, m: nat, n: nat, e: Id)
    requires IsRun(states, steps) && LeaseClock(steps) && m <= n < |states| && e in states[m].executions
    ensures e in states[n].executions
    ensures states[m].executions[e].state.lease.hardExpiry <= states[n].executions[e].state.lease.hardExpiry
    decreases n - m
  {
    GrowsBetween(states, steps, m, n);
    if m < n {
      var i := n - 1;
      InvAt(states, steps, i);
      ExpiryNeverMovesBack(states, steps, m, i, e);
      if states[n] != states[i] {
        EveryCommitIsSerial(states, steps, i);
        LeaseChangesOnlyByGrant(steps[i].op, states[i], e);
        if GrantsLease(steps[i].op) {
          ExpiryBounded(states, steps, i, e, steps[i].op.now);
        }
      }
    }
  }

  // ------------------------------------------------------------------ orphans

  /** Publish by the system, claim, system cancel: the execution stays leased although its task is gone. */
  function OrphaningSteps(): seq<Step> {
    [Step(PublishOp("t", SYSTEM_PUBLISHER, 10 * LEASE_SPAN, "", 0), 0, 0),
     Step(ClaimOp("t", "agent", "e", 1), 1, 1),
     Step(SystemCancelOp("t", 2), 2, 2),
     Step(MutateOp("e", Mutation(false, "agent", 1, None, None), 3), 3, 3)]
  }

  lemma ReachOrphan() returns (states: seq<DB>)
    ensures IsRun(states, OrphaningSteps()[..3]) && |states| == 4
    ensures "t" in states[3].tasks && states[3].tasks["t"].status == TaskCancelled && states[3].tasks["t"].active == None
    ensures states[3].tasks["t"].deadline == 10 * LEASE_SPAN && states[3].tasks["t"].version == 2
    ensures "e" in states[3].executions && states[3].executions["e"].state.status == Leased
    ensures states[3].executions["e"].state.lease == Lease(1, 1 + LEASE_DURATION, 1 + LEASE_SPAN)
    ensures states[3].executions["e"].state.agentId == "agent" && states[3].executions["e"].state.taskId == "t"
  {
    var steps := OrphaningSteps()[..3];
    var s0 := DB(map[], map[]);
    var s1 := After(Execute(steps[0].op, s0, s0, s0), s0);
    assert s1.tasks["t"] == TaskRow(SYSTEM_PUBLISHER, 10 * LEASE_SPAN, Open, 0, None, "");
    var s2 := After(Execute(steps[1].op, s1, s1, s1), s1);
    assert s2.tasks["t"].status == Claimed && s2.executions["e"].state.status == Leased;
    var s3 := After(Execute(steps[2].op, s2, s2, s2), s2);
    states := [s0, s1, s2, s3];
    assert StepAt(states, steps, 0) && StepAt(states, steps, 1) && StepAt(states, steps, 2);
  }

  lemma SystemCancelOrphans() returns (states: seq<DB>)
    ensures IsRun(states, OrphaningSteps())
    ensures "t" in states[3].tasks && states[3].tasks["t"].status == TaskCancelled && states[3].tasks["t"].active == None
    ensures "e" in states[3].executions && states[3].executions["e"].state.status == Leased
    ensures "e" in states[4].executions && states[4].executions["e"].state.lease.generation == 2
  {
    states := ReachOrphan();
    var steps := OrphaningSteps();
    Extend(states, steps[..3], steps[3]);
    states := states + [NextState(states, steps[3])];
    assert steps[..3] + [steps[3]] == steps;
  }

  // ------------------------------------------------------- an early heartbeat

  function ReachedTask(status: TaskStatus, version: nat): TaskRow {
    TaskRow("publisher", 10 * LEASE_SPAN, status, version, Some("e"), "")
  }

  predicate Reached(db: DB, status: ExecutionStatus) {
    && "t" in db.tasks && db.tasks["t"] == ReachedTask(InProgress, 2)
    && "e" in db.executions && db.executions["e"].state.taskId == "t" && db.executions["e"].state.status == status
  }

  /** Publish, claim and start. */
  function StartedSteps(claimedAt: int, startedAt: int): seq<Step> {
    [Step(PublishOp("t", "publisher", 10 * LEASE_SPAN, "", 0), 0, 0),
     Step(ClaimOp("t", "agent", "e", claimedAt), 1, 1),
     Step(MutateOp("e", Mutation(true, "agent", 1, None, None), startedAt), 2, 2)]
  }

  lemma ReachStarted(claimedAt: int, startedAt: int) returns (states: seq<DB>)
    requires 0 <= claimedAt <= startedAt < LEASE_SPAN
    ensures IsRun(states, StartedSteps(claimedAt, startedAt)) && |states| == 4 && Reached(states[3], Running)
    ensures states[3].executions["e"].state.lease == Lease(1, claimedAt + LEASE_DURATION, claimedAt + LEASE_SPAN)
    ensures states[3].executions["e"].state.agentId == "agent"
  {
    var steps := StartedSteps(claimedAt, startedAt);
    var s0 := DB(map[], map[]);
    var s1 := After(Execute(steps[0].op, s0, s0, s0), s0);
    assert s1.tasks["t"] == TaskRow("publisher", 10 * LEASE_SPAN, Open, 0, None, "");
    var s2 := After(Execute(steps[1].op, s1, s1, s1), s1);
    assert s2.tasks["t"] == ReachedTask(Claimed, 1) && s2.executions["e"].state.status == Leased;
    var s3 := After(Execute(steps[2].op, s2, s2, s2), s2);
    states := [s0, s1, s2, s3];
    assert StepAt(states, steps, 0) && StepAt(states, steps, 1) && StepAt(states, steps, 2);
  }

  /** A claim whose clock reads 100, a start, and a heartbeat whose clock reads 50. */
  function EarlyHeartbeatSteps(): seq<Step> {
    StartedSteps(100, 101) + [Step(MutateOp("e", Mutation(false, "agent", 1, None, None), 50), 3, 3)]
  }

  /** A committed heartbeat can leave its execution an earlier hard expiry than it had. */
  lemma EarlyHeartbeatShortens() returns (states: seq<DB>)
    ensures IsRun(states, EarlyHeartbeatSteps()) && |states| == 5
    ensures "e" in states[3].executions && "e" in states[4].executions
    ensures states[3].executions["e"].state.lease.hardExpiry == 100 + LEASE_SPAN
    ensures states[4].executions["e"].state.lease.hardExpiry == 50 + LEASE_SPAN
  {
    states := ReachStarted(100, 101);
    var last := EarlyHeartbeatSteps()[3];
    Extend(states, StartedSteps(100, 101), last);
    assert Outcome(states, 3, last).Ok?;
    states := states + [NextState(states, last)];
  }
}

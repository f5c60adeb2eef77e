/**
 Redelivered notifications.

 The notifier skips an intent whose effect the execution's status already shows. Here that table is
 shown to be exact, and redelivery to be harmless wherever it lands in a history.
 */
module Notifications {
  import opened Common
  import opened Domain
  import opened Lifecycle
  import opened LifecycleInvariant
  import opened LifecycleRuns
  import opened LifecycleTheorems

  predicate IsGitIntent(intent: Intent) {
    intent in {Submit, StartValidation, FailValidation, MarkReviewing}
  }

  /** The status a git intent leads to. */
  function Target(intent: Intent): ExecutionStatus
    requires IsGitIntent(intent)
  {
    match intent
    case Submit => Submitted
    case StartValidation => Validating
    case FailValidation => ValidationFailed
    case MarkReviewing => Reviewing
  }

  /** One move of the state machine: a start, an expiry, or some intent some actor may apply at some time. */
  ghost predicate Moves(a: ExecutionStatus, b: ExecutionStatus) {
    || (a == Leased && b == Running)
    || (IsLive(a) && b == Expired)
    || exists e: ExecutionState, intent, actor, now ::
         e.status == a && ApplyExecution(e, intent, actor, now).Ok? && ApplyExecution(e, intent, actor, now).value.status == b
  }

  /** There is a path of at most `n` moves from `a` to `b`. */
  ghost predicate Reaches(a: ExecutionStatus, b: ExecutionStatus, n: nat)
    decreases n
  {
    a == b || (n > 0 && exists c :: Moves(a, c) && Reaches(c, b, n - 1))
  }

  /** The same moves, as a table. */
  predicate MovesTable(a: ExecutionStatus, b: ExecutionStatus) {
    match a
    case Leased => b in {Running, Expired, Cancelled}
    case Running => b in {Submitted, Reviewing, Expired, Cancelled}
    case Submitted => b in {Validating, Cancelled}
    case Validating => b in {ValidationFailed, Reviewing, Cancelled}
    case Reviewing => b in {Accepted, Rejected, RevisionRequested, Cancelled}
    case RevisionRequested => b == Cancelled
    case _ => false
  }

  function Sample(s: ExecutionStatus): ExecutionState {
    ExecutionState("", "", s, "", 0.0, Lease(0, 1, 1))
  }

  lemma MoveExists(a: ExecutionStatus, b: ExecutionStatus, intent: Intent, kind: ActorType)
    requires ApplyExecution(Sample(a), intent, Actor(kind, "x"), 0) == Ok(Sample(b))
    ensures Moves(a, b)
  {
    assert ApplyExecution(Sample(a), intent, Actor(kind, "x"), 0).value.status == b;
  }

  lemma MovesIsTable(a: ExecutionStatus, b: ExecutionStatus)
    ensures Moves(a, b) <==> MovesTable(a, b)
  {
    if MovesTable(a, b) {
      match b
      case Running | Expired =>
      case Submitted => MoveExists(a, b, Submit, System);
      case Validating => MoveExists(a, b, StartValidation, System);
      case ValidationFailed => MoveExists(a, b, FailValidation, System);
      case Reviewing => MoveExists(a, b, if a == Running then SubmitForReview else MarkReviewing, System);
      case RevisionRequested => MoveExists(a, b, RequestRevision, Reviewer);
      case Accepted => MoveExists(a, b, Accept, Reviewer);
      case Rejected => MoveExists(a, b, Reject, Reviewer);
      case Cancelled => MoveExists(a, b, Cancel, System);
    }
  }

  lemma {:induction false} ReachedIsApplied(a: ExecutionStatus, b: ExecutionStatus, n: nat, intent: Intent)
    requires IsGitIntent(intent) && (a == Cancelled || AlreadyApplied(a, intent)) && Reaches(a, b, n)
    ensures b == Cancelled || AlreadyApplied(b, intent)
    decreases n
  {
    if a != b {
      var c :| Moves(a, c) && Reaches(c, b, n - 1);
      MovesIsTable(a, c);
      ReachedIsApplied(c, b, n - 1, intent);
    }
  }

  /** A shortest path from the target to each status the table lists, by the status after the first move. */
  function Via(b: ExecutionStatus): ExecutionStatus {
    match b
    case Submitted => Submitted
    case Validating => Submitted
    case ValidationFailed | Reviewing => Validating
    case _ => Reviewing
  }

  lemma {:induction false} ReachesStep(a: ExecutionStatus, c: ExecutionStatus, b: ExecutionStatus, n: nat)
    requires Reaches(a, c, n) && Moves(c, b)
    ensures Reaches(a, b, n + 1)
    decreases n
  {
    if a == c {
      assert Reaches(b, b, n);
    } else {
      var d :| Moves(a, d) && Reaches(d, c, n - 1);
      ReachesStep(d, c, b, n - 1);
    }
  }

  lemma ViaStep(b: ExecutionStatus, intent: Intent)
    requires IsGitIntent(intent) && AlreadyApplied(b, intent) && b != Target(intent)
    ensures AlreadyApplied(Via(b), intent) && Rank(Target(intent)) <= Rank(Via(b)) < Rank(b)
  {
  }

  /** Within as many moves as the ranks are apart, capped by the longest path. */
  lemma {:induction false} AppliedWithin(b: ExecutionStatus, intent: Intent)
    requires IsGitIntent(intent) && AlreadyApplied(b, intent)
    ensures Rank(Target(intent)) <= Rank(b) && Reaches(Target(intent), b, Rank(b) - Rank(Target(intent)))
    decreases Rank(b)
  {
    var a := Target(intent);
    if b != a {
      var c := Via(b);
      ViaStep(b, intent);
      MovesIsTable(c, b);
      AppliedWithin(c, intent);
      ReachesStep(a, c, b, Rank(c) - Rank(a));
      ReachesMore(a, b, Rank(c) - Rank(a) + 1, Rank(b) - Rank(a));
    }
  }

  lemma {:induction false} ReachesMore(a: ExecutionStatus, b: ExecutionStatus, m: nat, n: nat)
    requires Reaches(a, b, m) && m <= n
    ensures Reaches(a, b, n)
    decreases n
  {
    if a != b {
      var c :| Moves(a, c) && Reaches(c, b, m - 1);
      ReachesMore(c, b, m - 1, n - 1);
    }
  }

  /** The already-applied table is exact: the non-cancelled statuses reachable from the intent's target. */
  lemma AlreadyAppliedIff(s: ExecutionStatus, intent: Intent)
    requires IsGitIntent(intent)
    ensures AlreadyApplied(s, intent) <==> s != Cancelled && exists n :: Reaches(Target(intent), s, n)
  {
    if AlreadyApplied(s, intent) {
      AppliedWithin(s, intent);
      var n: nat := Rank(s) - Rank(Target(intent));
      assert Reaches(Target(intent), s, n);
    }
    if s != Cancelled && exists n :: Reaches(Target(intent), s, n) {
      var n :| Reaches(Target(intent), s, n);
      ReachedIsApplied(Target(intent), s, n, intent);
    }
  }

  // --------------------------------------------------------- redelivery in runs

  /** Every transaction moves an execution's status along the state machine, if at all. */
  lemma StatusMoves(op: Op, db: DB, e: Id)
    requires Inv(db) && Allowed(op, db, db) && Execute(op, db, db, db).Ok?
    requires e in db.executions && e in Execute(op, db, db, db).value.executions
    ensures var a, b := db.executions[e].state.status, Execute(op, db, db, db).value.executions[e].state.status;
            a == b || Moves(a, b)
  {
    var a, b := db.executions[e].state.status, Execute(op, db, db, db).value.executions[e].state.status;
    MovesIsTable(a, b);
    match op
    case CancelOp(taskId, listed, agentId, now) => CancelEffect(db, taskId, listed, agentId, now);
    case ReapOp(executions, tasks, now) => ReapMoves(db, executions, tasks, now, e);
    case _ =>
  }

  lemma {:induction false} ReapMoves(db: DB, executions: seq<Id>, tasks: seq<Id>, now: int, e: Id)
    requires e in db.executions
    ensures e in ReapTx(db, executions, tasks, now).executions
    ensures var a, b := db.executions[e].state.status, ReapTx(db, executions, tasks, now).executions[e].state.status;
            a == b || (IsLive(a) && b == Expired)
    decreases |executions| + |tasks|
  {
    if executions != [] {
      ReapMoves(ReapExecution(db, executions[0], now).db, executions[1..], tasks, now, e);
    } else if tasks != [] {
      ReapMoves(ReapOpen(db, tasks[0], now).db, [], tasks[1..], now, e);
    }
  }

  predicate Shows(db: DB, e: Id, intent: Intent) {
    e in db.executions && (db.executions[e].state.status == Cancelled || AlreadyApplied(db.executions[e].state.status, intent))
  }

  /** Once an intent shows in an execution's status it shows, or the execution is cancelled, ever after. */
  lemma {:induction false} ShowsForever(states: seq<DB>, steps: seq<Step>, m: nat, n: nat, e: Id, intent: Intent)
    requires IsRun(states, steps) && m <= n < |states| && IsGitIntent(intent) && Shows(states[m], e, intent)
    ensures Shows(states[n], e, intent)
    decreases n - m
  {
    if m < n {
      var i := n - 1;
      ShowsForever(states, steps, m, i, e, intent);
      if states[n] != states[i] {
        InvAt(states, steps, i);
        EveryCommitIsSerial(states, steps, i);
        GrowsBetween(states, steps, i, n);
        StatusMoves(steps[i].op, states[i], e);
        var a, b := states[i].executions[e].state.status, states[n].executions[e].state.status;
        MovesIsTable(a, b);
      }
    }
  }

  /** Step `i` is a delivery of a git intent that was reported as a success. */
  ghost predicate Delivers(states: seq<DB>, steps: seq<Step>, i: nat)
    requires |states| == |steps| + 1 && i < |steps|
  {
    StepAt(states, steps, i) && Outcome(states, i, steps[i]).Ok? && steps[i].op.NotifyOp? && IsGitIntent(steps[i].op.intent)
  }

  /** A successful delivery leaves the intent visible. */
  lemma DeliveredShows(states: seq<DB>, steps: seq<Step>, i: nat)
    requires IsRun(states, steps) && i < |steps| && Delivers(states, steps, i)
    ensures Shows(states[i + 1], steps[i].op.executionId, steps[i].op.intent)
  {
    var op := steps[i].op;
    var edb := states[steps[i].executionsReadAt];
    assert StepAt(states, steps, i);
    if AlreadyApplied(edb.executions[op.executionId].state.status, op.intent) {
      ShowsForever(states, steps, steps[i].executionsReadAt, i + 1, op.executionId, op.intent);
    }
  }

  /** What one more delivery does on fresh reads: nothing, reported as success unless the execution is cancelled. */
  lemma ShownMeansNoop(db: DB, op: Op)
    requires op.NotifyOp? && IsGitIntent(op.intent) && Shows(db, op.executionId, op.intent)
    ensures Execute(op, db, db, db) ==
              if db.executions[op.executionId].state.status == Cancelled then Err(StateConflict) else Ok(db)
  {
  }

  /**
   Redelivering a delivered command, by whatever actor, at whatever time, on however stale a read,
   anywhere later in the run, changes nothing.
   */
  lemma RedeliveryIsHarmless(states: seq<DB>, steps: seq<Step>, i: nat, n: nat, again: Step)
    requires IsRun(states, steps) && i < |steps| && i < n < |states| && Delivers(states, steps, i)
    requires again.op.NotifyOp? && again.op.executionId == steps[i].op.executionId && again.op.intent == steps[i].op.intent
    requires StepOk(states, n, again)
    ensures After(Outcome(states, n, again), states[n]) == states[n]
    ensures again.executionsReadAt == n ==>
              again.op.executionId in states[n].executions &&
              (Outcome(states, n, again).Ok? <==> states[n].executions[again.op.executionId].state.status != Cancelled)
  {
    DeliveredShows(states, steps, i);
    ShowsForever(states, steps, i + 1, n, again.op.executionId, again.op.intent);
    InvAt(states, steps, again.taskReadAt);
    GrowsBetween(states, steps, again.taskReadAt, n);
    GrowsBetween(states, steps, again.executionsReadAt, n);
    CommitIsSerial(again.op, states[again.taskReadAt], states[again.executionsReadAt], states[n]);
    ShownMeansNoop(states[n], again.op);
  }

  function ShiftPoint(r: nat, n: nat): nat { if r > n then r + 1 else r }

  function Shifted(s: Step, n: nat): Step {
    s.(taskReadAt := ShiftPoint(s.taskReadAt, n), executionsReadAt := ShiftPoint(s.executionsReadAt, n))
  }

  function WithStutter(states: seq<DB>, n: nat): (r: seq<DB>)
    requires n < |states|
    ensures |r| == |states| + 1
  {
    seq(|states| + 1, j requires 0 <= j < |states| + 1 => if j <= n then states[j] else states[j - 1])
  }

  function WithStep(steps: seq<Step>, n: nat, again: Step): (r: seq<Step>)
    requires n <= |steps|
    ensures |r| == |steps| + 1
  {
    seq(|steps| + 1, j requires 0 <= j < |steps| + 1 =>
      if j < n then steps[j] else if j == n then again else Shifted(steps[j - 1], n))
  }

  /** A step depends on the run only through the three tables it touches. */
  lemma StepTransfers(states: seq<DB>, i: nat, s: Step, states': seq<DB>, j: nat, s': Step)
    requires i < |states| && j < |states'| && s.op == s'.op && StepOk(states, i, s)
    requires s'.taskReadAt <= j && s'.executionsReadAt <= j && (s.taskReadAt <= s.executionsReadAt ==> s'.taskReadAt <= s'.executionsReadAt)
    requires states'[j] == states[i]
    requires states'[s'.taskReadAt] == states[s.taskReadAt] && states'[s'.executionsReadAt] == states[s.executionsReadAt]
    ensures StepOk(states', j, s') && Outcome(states', j, s') == Outcome(states, i, s)
  {
  }

  /**
   So a run with the redelivery spliced in is again a run, with the same final tables; and since it is
   a run, any number of further redeliveries may be spliced in the same way.
   */
  lemma RedeliveryCanBeSpliced(states: seq<DB>, steps: seq<Step>, i: nat, n: nat, again: Step)
    requires IsRun(states, steps) && i < |steps| && i < n < |states| && Delivers(states, steps, i)
    requires again.op.NotifyOp? && again.op.executionId == steps[i].op.executionId && again.op.intent == steps[i].op.intent
    requires StepOk(states, n, again)
    ensures IsRun(WithStutter(states, n), WithStep(steps, n, again))
    ensures WithStutter(states, n)[|states|] == states[|states| - 1]
  {
    RedeliveryIsHarmless(states, steps, i, n, again);
    SpliceIsRun(states, steps, n, again);
  }

  lemma SpliceIsRun(states: seq<DB>, steps: seq<Step>, n: nat, again: Step)
    requires IsRun(states, steps) && n < |states| && StepOk(states, n, again)
    requires After(Outcome(states, n, again), states[n]) == states[n]
    ensures IsRun(WithStutter(states, n), WithStep(steps, n, again))
  {
    forall j | 0 <= j < |steps| + 1
      ensures StepAt(WithStutter(states, n), WithStep(steps, n, again), j)
    {
      SplicedStep(states, steps, n, again, j);
    }
  }

  lemma SplicedStep(states: seq<DB>, steps: seq<Step>, n: nat, again: Step, j: nat)
    requires IsRun(states, steps) && n < |states| && StepOk(states, n, again) && j <= |steps|
    requires After(Outcome(states, n, again), states[n]) == states[n]
    ensures StepAt(WithStutter(states, n), WithStep(steps, n, again), j)
  {
    var states', s := WithStutter(states, n), WithStep(steps, n, again)[j];
    if j < n {
      assert StepAt(states, steps, j);
      StepTransfers(states, j, steps[j], states', j, s);
    } else if j == n {
      StepTransfers(states, n, again, states', n, again);
    } else {
      assert StepAt(states, steps, j - 1);
      StepTransfers(states, j - 1, steps[j - 1], states', j, s);
    }
  }
}

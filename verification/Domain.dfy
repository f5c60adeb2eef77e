/**
 The task and execution state machines.

 Each transition is a function on a value; the classes below carry the same state in mutable
 fields, as the domain objects do, and every method is proved to compute its function.
 Times are integers on the database clock.
 */
module Domain {
  import opened Common

  const SECOND: nat := 1_000_000_000
  const LEASE_DURATION: nat := 600 * SECOND
  const LEASE_GRACE: nat := 30 * SECOND
  const SYSTEM_PUBLISHER := "system-issue-sync"

  datatype TaskStatus = Draft | Open | Claimed | InProgress | Completed | TaskCancelled | TaskExpired

  datatype ExecutionStatus =
    | Leased | Running | Submitted | Validating | ValidationFailed | Reviewing
    | RevisionRequested | Accepted | Rejected | Expired | Cancelled

  datatype Intent =
    | Publish | Claim | Cancel | Start | Complete | Heartbeat | Expire | Accept | Reject
    | RequestRevision | SubmitForReview | Submit | StartValidation | FailValidation | MarkReviewing

  datatype ActorType = Publisher | Agent | System | Reviewer
  datatype Actor = Actor(kind: ActorType, id: string)

  // --------------------------------------------------------------------- task

  datatype TaskState = TaskState(publisherId: string, deadline: int, status: TaskStatus, claimedBy: string)

  function ApplyTask(t: TaskState, intent: Intent, actor: Actor, now: int): Result<TaskState> {
    if actor.id == "" then Err(Forbidden)
    else if intent in {Publish, Claim, Start, Cancel} && now >= t.deadline then Err(StateConflict)
    else
      match intent
      case Publish =>
        if t.status != Draft then Err(StateConflict)
        else if actor.kind != Publisher || actor.id != t.publisherId then Err(Forbidden)
        else Ok(t.(status := Open))
      case Claim =>
        if t.status != Open then Err(StateConflict)
        else if actor.kind != Agent then Err(Forbidden)
        else Ok(t.(claimedBy := actor.id, status := Claimed))
      case Start =>
        if t.status != Claimed then Err(StateConflict)
        else if actor.kind != Agent || actor.id != t.claimedBy then Err(Forbidden)
        else Ok(t.(status := InProgress))
      case Cancel =>
        if t.status !in {Open, Claimed, InProgress} then Err(StateConflict)
        else if actor.kind != Publisher || actor.id != t.publisherId then Err(Forbidden)
        else Ok(t.(status := TaskCancelled))
      case Complete =>
        if t.status != InProgress then Err(StateConflict)
        else if (actor.kind != Agent || actor.id != t.claimedBy) && actor.kind != Reviewer then Err(Forbidden)
        else Ok(t.(status := Completed))
      case Expire =>
        if t.status !in {Open, Claimed, InProgress} then Err(StateConflict)
        else if actor.kind != System then Err(Forbidden)
        else if now < t.deadline then Err(StateConflict)
        else Ok(t.(status := TaskExpired))
      case _ => Err(StateConflict)
  }

  class Task {
    const publisherId: string
    const deadline: int
    var status: TaskStatus
    var claimedBy: string

    constructor (state: TaskState)
      ensures State() == state
    {
      publisherId, deadline, status, claimedBy := state.publisherId, state.deadline, state.status, state.claimedBy;
    }

    function State(): TaskState
      reads this
    {
      TaskState(publisherId, deadline, status, claimedBy)
    }

    method Apply(intent: Intent, actor: Actor, now: int) returns (r: Result<()>)
      modifies this
      ensures match ApplyTask(old(State()), intent, actor, now)
              case Ok(t) => r == Ok(()) && State() == t
              case Err(code) => r == Err(code) && State() == old(State())
    {
      if actor.id == "" {
        return Err(Forbidden);
      }
      if intent in {Publish, Claim, Start, Cancel} && now >= deadline {
        return Err(StateConflict);
      }
      match intent {
        case Publish =>
          if status != Draft { return Err(StateConflict); }
          if actor.kind != Publisher || actor.id != publisherId { return Err(Forbidden); }
          status := Open;
        case Claim =>
          if status != Open { return Err(StateConflict); }
          if actor.kind != Agent { return Err(Forbidden); }
          claimedBy := actor.id;
          status := Claimed;
        case Start =>
          if status != Claimed { return Err(StateConflict); }
          if actor.kind != Agent || actor.id != claimedBy { return Err(Forbidden); }
          status := InProgress;
        case Cancel =>
          if status !in {Open, Claimed, InProgress} { return Err(StateConflict); }
          if actor.kind != Publisher || actor.id != publisherId { return Err(Forbidden); }
          status := TaskCancelled;
        case Complete =>
          if status != InProgress { return Err(StateConflict); }
          if (actor.kind != Agent || actor.id != claimedBy) && actor.kind != Reviewer { return Err(Forbidden); }
          status := Completed;
        case Expire =>
          if status !in {Open, Claimed, InProgress} { return Err(StateConflict); }
          if actor.kind != System { return Err(Forbidden); }
          if now < deadline { return Err(StateConflict); }
          status := TaskExpired;
        case _ =>
          return Err(StateConflict);
      }
      return Ok(());
    }
  }

  // ---------------------------------------------------------------- execution

  datatype Lease = Lease(generation: int, softExpiry: int, hardExpiry: int)

  datatype ExecutionState = ExecutionState(
    taskId: string, agentId: string, status: ExecutionStatus, stage: string, progress: real, lease: Lease)

  /** The outcome of a mutating call: the object as it is left behind, and the error if any. */
  datatype Attempt = Attempt(state: ExecutionState, error: Option<ErrorCode>)

  predicate IsLive(s: ExecutionStatus) { s in {Leased, Running} }

  /** The statuses covered by the one-active-execution-per-task index. */
  predicate IsActive(s: ExecutionStatus) {
    s in {Leased, Running, Submitted, Validating, Reviewing, RevisionRequested}
  }

  predicate IsTerminal(s: ExecutionStatus) { s in {ValidationFailed, Accepted, Rejected, Expired, Cancelled} }

  function RenewLease(now: int, current: int): Lease {
    Lease(current + 1, now + LEASE_DURATION, now + LEASE_DURATION + LEASE_GRACE)
  }

  function NewLeasedExecution(id: string, taskId: string, agentId: string, now: int, generation: int): Result<ExecutionState> {
    if id == "" || taskId == "" || agentId == "" || generation < 0 then Err(InvalidArgument)
    else Ok(ExecutionState(taskId, agentId, Leased, "", 0.0,
                           Lease(generation, now + LEASE_DURATION, now + LEASE_DURATION + LEASE_GRACE)))
  }

  /** A bad progress value is refused only after the stage has already been overwritten. */
  function StageProgress(e: ExecutionState, stage: Option<string>, progress: Option<real>): Attempt {
    var staged := if stage.Some? then e.(stage := stage.value) else e;
    if progress.None? then Attempt(staged, None)
    else if progress.value < 0.0 || progress.value > 1.0 then Attempt(staged, Some(InvalidArgument))
    else Attempt(staged.(progress := progress.value), None)
  }

  function StartAttempt(e: ExecutionState, now: int, generation: int, stage: Option<string>, progress: Option<real>): Attempt {
    if e.status != Leased then Attempt(e, Some(StateConflict))
    else if generation != e.lease.generation || now >= e.lease.hardExpiry then Attempt(e, Some(LeaseExpired))
    else
      var a := StageProgress(e, stage, progress);
      if a.error.Some? then a else Attempt(a.state.(status := Running), None)
  }

  function HeartbeatAttempt(e: ExecutionState, now: int, generation: int, stage: Option<string>, progress: Option<real>): Attempt {
    if !IsLive(e.status) then Attempt(e, Some(StateConflict))
    else if generation != e.lease.generation || now >= e.lease.hardExpiry then Attempt(e, Some(LeaseExpired))
    else
      var a := StageProgress(e, stage, progress);
      if a.error.Some? then a else Attempt(a.state.(lease := RenewLease(now, generation)), None)
  }

  predicate MayWork(actor: Actor) { actor.id != "" && actor.kind in {Publisher, Agent, System} }
  predicate MayValidate(actor: Actor) { actor.id != "" && actor.kind == System }
  predicate MayReview(actor: Actor) { actor.id != "" && actor.kind == Reviewer }
  predicate MayCancel(actor: Actor) { actor.id != "" && actor.kind in {Publisher, System} }

  function Moved(e: ExecutionState, from: ExecutionStatus, allowed: bool, to: ExecutionStatus): Result<ExecutionState> {
    if e.status != from then Err(StateConflict)
    else if !allowed then Err(Forbidden)
    else Ok(e.(status := to))
  }

  function ApplyExecution(e: ExecutionState, intent: Intent, actor: Actor, now: int): Result<ExecutionState> {
    match intent
    case Accept => Moved(e, Reviewing, MayReview(actor), Accepted)
    case Reject => Moved(e, Reviewing, MayReview(actor), Rejected)
    case RequestRevision => Moved(e, Reviewing, MayReview(actor), RevisionRequested)
    case Cancel =>
      if !IsActive(e.status) then Err(StateConflict)
      else if !MayCancel(actor) then Err(Forbidden)
      else Ok(e.(status := Cancelled))
    case SubmitForReview => SubmittedAs(e, actor, now, Reviewing)
    case Submit => SubmittedAs(e, actor, now, Submitted)
    case StartValidation => Moved(e, Submitted, MayValidate(actor), Validating)
    case FailValidation => Moved(e, Validating, MayValidate(actor), ValidationFailed)
    case MarkReviewing => Moved(e, Validating, MayValidate(actor), Reviewing)
    case _ => Err(StateConflict)
  }

  function SubmittedAs(e: ExecutionState, actor: Actor, now: int, to: ExecutionStatus): Result<ExecutionState> {
    if e.status != Running then Err(StateConflict)
    else if !MayWork(actor) then Err(Forbidden)
    else if now >= e.lease.hardExpiry then Err(LeaseExpired)
    else Ok(e.(status := to))
  }

  class Execution {
    const taskId: string
    const agentId: string
    var status: ExecutionStatus
    var stage: string
    var progress: real
    var lease: Lease

    constructor (state: ExecutionState)
      ensures State() == state
    {
      taskId, agentId := state.taskId, state.agentId;
      status, stage, progress, lease := state.status, state.stage, state.progress, state.lease;
    }

    function State(): ExecutionState
      reads this
    {
      ExecutionState(taskId, agentId, status, stage, progress, lease)
    }

    method ApplyStageProgress(s: Option<string>, p: Option<real>) returns (error: Option<ErrorCode>)
      modifies this`stage, this`progress
      ensures Attempt(State(), error) == StageProgress(old(State()), s, p)
    {
      if s.Some? {
        stage := s.value;
      }
      if p.Some? {
        if p.value < 0.0 || p.value > 1.0 {
          return Some(InvalidArgument);
        }
        progress := p.value;
      }
      return None;
    }

    method Start(now: int, generation: int, s: Option<string>, p: Option<real>) returns (error: Option<ErrorCode>)
      modifies this
      ensures Attempt(State(), error) == StartAttempt(old(State()), now, generation, s, p)
    {
      if status != Leased {
        return Some(StateConflict);
      }
      if generation != lease.generation || now >= lease.hardExpiry {
        return Some(LeaseExpired);
      }
      error := ApplyStageProgress(s, p);
      if error.Some? {
        return;
      }
      status := Running;
    }

    method Heartbeat(now: int, generation: int, s: Option<string>, p: Option<real>) returns (error: Option<ErrorCode>)
      modifies this
      ensures Attempt(State(), error) == HeartbeatAttempt(old(State()), now, generation, s, p)
    {
      if status != Leased && status != Running {
        return Some(StateConflict);
      }
      if generation != lease.generation || now >= lease.hardExpiry {
        return Some(LeaseExpired);
      }
      error := ApplyStageProgress(s, p);
      if error.Some? {
        return;
      }
      lease := RenewLease(now, generation);
    }

    method Move(from: ExecutionStatus, allowed: bool, to: ExecutionStatus) returns (r: Result<()>)
      modifies this`status
      ensures match Moved(old(State()), from, allowed, to)
              case Ok(e) => r == Ok(()) && State() == e
              case Err(code) => r == Err(code) && State() == old(State())
    {
      if status != from { return Err(StateConflict); }
      if !allowed { return Err(Forbidden); }
      status := to;
      return Ok(());
    }

    method CancelBy(actor: Actor) returns (r: Result<()>)
      modifies this`status
      ensures match ApplyExecution(old(State()), Cancel, actor, 0)
              case Ok(e) => r == Ok(()) && State() == e
              case Err(code) => r == Err(code) && State() == old(State())
    {
      match status {
        case Leased | Running | Submitted | Validating | Reviewing | RevisionRequested =>
        case _ => return Err(StateConflict);
      }
      if actor.id == "" || (actor.kind != Publisher && actor.kind != System) { return Err(Forbidden); }
      status := Cancelled;
      return Ok(());
    }

    method SubmitAs(actor: Actor, now: int, to: ExecutionStatus) returns (r: Result<()>)
      modifies this`status
      ensures match SubmittedAs(old(State()), actor, now, to)
              case Ok(e) => r == Ok(()) && State() == e
              case Err(code) => r == Err(code) && State() == old(State())
    {
      if status != Running { return Err(StateConflict); }
      if actor.id == "" || (actor.kind != Publisher && actor.kind != Agent && actor.kind != System) { return Err(Forbidden); }
      if now >= lease.hardExpiry { return Err(LeaseExpired); }
      status := to;
      return Ok(());
    }

    method Apply(intent: Intent, actor: Actor, now: int) returns (r: Result<()>)
      modifies this`status
      ensures match ApplyExecution(old(State()), intent, actor, now)
              case Ok(e) => r == Ok(()) && State() == e
              case Err(code) => r == Err(code) && State() == old(State())
    {
      match intent
      case Accept => r := Move(Reviewing, actor.kind == Reviewer && actor.id != "", Accepted);
      case Reject => r := Move(Reviewing, actor.kind == Reviewer && actor.id != "", Rejected);
      case RequestRevision => r := Move(Reviewing, actor.kind == Reviewer && actor.id != "", RevisionRequested);
      case Cancel => r := CancelBy(actor);
      case SubmitForReview => r := SubmitAs(actor, now, Reviewing);
      case Submit => r := SubmitAs(actor, now, Submitted);
      case StartValidation => r := Move(Submitted, actor.kind == System && actor.id != "", Validating);
      case FailValidation => r := Move(Validating, actor.kind == System && actor.id != "", ValidationFailed);
      case MarkReviewing => r := Move(Validating, actor.kind == System && actor.id != "", Reviewing);
      case _ => r := Err(StateConflict);
    }
  }

  // -------------------------------------------------------- how statuses move

  /** Every status change goes strictly up this rank, so no status is ever visited twice. */
  function Rank(s: ExecutionStatus): nat {
    match s
    case Leased => 0
    case Running => 1
    case Submitted => 2
    case Validating => 3
    case Reviewing => 4
    case ValidationFailed | RevisionRequested | Accepted | Rejected => 5
    case Expired | Cancelled => 6
  }

  lemma TransitionsRaiseRank(e: ExecutionState, intent: Intent, actor: Actor, now: int)
    requires ApplyExecution(e, intent, actor, now).Ok?
    ensures Rank(e.status) < Rank(ApplyExecution(e, intent, actor, now).value.status)
    ensures !IsTerminal(e.status)
  {
  }
}

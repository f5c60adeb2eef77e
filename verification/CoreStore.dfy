/**
 The task and execution tables as mutable state, with the guarded row writes and the service
 transactions over them.

 Each transaction is given the rows it read earlier and runs against the tables as they are when it
 commits; an error restores the tables. Every method is proved to have the effect of the
 corresponding function of `Lifecycle`.
 */
module CoreStore {
  import opened Common
  import opened Domain
  import opened Lifecycle
  import opened LifecycleInvariant
  import opened Reaper

  function Status(r: Result<DB>): Result<()> {
    if r.Ok? then Ok(()) else Err(r.code)
  }

  function Kept(r: Result<DB>, before: DB): DB {
    if r.Ok? then r.value else before
  }

  /** How many tasks a pass over `ids` releases. */
  function Released(db: DB, ids: seq<Id>, now: int): nat
    decreases |ids|
  {
    if ids == [] then 0
    else (if ReapExecution(db, ids[0], now).updated then 1 else 0) + Released(ReapExecution(db, ids[0], now).db, ids[1..], now)
  }

  class Store {
    var tasks: map<Id, TaskRow>
    var executions: map<Id, ExecutionRow>

    constructor (db: DB)
      ensures View() == db
    {
      tasks, executions := db.tasks, db.executions;
    }

    function View(): DB
      reads this
    {
      DB(tasks, executions)
    }

    // ------------------------------------------------------ guarded row writes

    method WriteTask(record: TaskRecord, status: TaskStatus, active: Option<Id>) returns (updated: bool)
      modifies this`tasks
      ensures Written(View(), updated) == UpdateTask(old(View()), record, status, active)
    {
      updated := record.id in tasks && tasks[record.id].version == record.row.version;
      if updated {
        var row := tasks[record.id];
        tasks := tasks[record.id := row.(
                   content := record.row.content, status := status, version := row.version + 1, active := active)];
      }
    }

    method WriteExecution(id: Id, e: ExecutionState, expectedVersion: nat, now: int) returns (updated: bool)
      modifies this`executions
      ensures Written(View(), updated) == UpdateExecution(old(View()), id, e, expectedVersion, now)
    {
      updated := id in executions && executions[id].version == expectedVersion;
      if updated {
        var row := executions[id];
        var startedAt, submittedAt, expiredAt := row.startedAt, row.submittedAt, row.expiredAt;
        if e.status == Running && startedAt.None? { startedAt := Some(now); }
        if e.status == Submitted && submittedAt.None? { submittedAt := Some(now); }
        if e.status == Expired && expiredAt.None? { expiredAt := Some(now); }
        executions := executions[id := ExecutionRow(WithState(row, e), row.version + 1, startedAt, submittedAt, expiredAt)];
      }
    }

    method WriteOwnedExecution(id: Id, e: ExecutionState, expectedVersion: nat, agentId: string, generation: int, now: int)
      returns (updated: bool)
      modifies this`executions
      ensures Written(View(), updated) == UpdateOwnedExecution(old(View()), id, e, expectedVersion, agentId, generation, now)
    {
      updated := false;
      if id in executions {
        var row := executions[id];
        updated := && row.version == expectedVersion
                   && row.state.agentId == agentId && row.state.lease.generation == generation
                   && (row.state.status == Leased || row.state.status == Running)
                   && row.state.lease.hardExpiry >= now;
        if updated {
          var startedAt := if e.status == Running && row.startedAt.None? then Some(now) else row.startedAt;
          executions := executions[id := ExecutionRow(WithState(row, e), row.version + 1, startedAt, row.submittedAt, row.expiredAt)];
        }
      }
    }

    // ------------------------------------------------------------ transactions

    method ClaimTask(record: TaskRecord, agentId: string, newId: Id, now: int) returns (r: Result<()>)
      modifies this
      ensures var spec := ClaimTx(old(View()), record, agentId, newId, now);
              r == Status(spec) && View() == Kept(spec, old(View()))
    {
      var before := tasks;
      var task := new Task(StateOf(record));
      var applied := task.Apply(Claim, Actor(Agent, agentId), now);
      if applied.Err? {
        return applied;
      }
      var execution := NewLeasedExecution(newId, record.id, agentId, now, 1);
      if execution.Err? {
        return Err(execution.code);
      }
      if !(&& record.id in tasks && tasks[record.id].status == Open
           && tasks[record.id].version == record.row.version && tasks[record.id].deadline > now)
      {
        return Err(StateConflict);
      }
      tasks := tasks[record.id := tasks[record.id].(
                 status := Claimed, version := record.row.version + 1, active := Some(newId))];
      if newId in executions {
        tasks := before;
        return Err(Internal);
      }
      if exists e :: e in executions && executions[e].state.taskId == record.id && IsActive(executions[e].state.status) {
        tasks := before;
        return Err(StateConflict);
      }
      executions := executions[newId := ExecutionRow(execution.value, 0, None, None, None)];
      return Ok(());
    }

    method MutateExecution(id: Id, row: ExecutionRow, record: TaskRecord, m: Mutation, now: int) returns (r: Result<()>)
      modifies this
      ensures var spec := MutateTx(old(View()), id, row, record, m, now);
              r == Status(spec) && View() == Kept(spec, old(View()))
    {
      if row.state.agentId != m.agentId {
        return Err(NotFound);
      }
      if now >= record.row.deadline {
        return Err(DeadlineExceeded);
      }
      var before := executions;
      var execution := new Execution(row.state);
      var error;
      if m.starts {
        error := execution.Start(now, m.generation, m.stage, m.progress);
      } else {
        error := execution.Heartbeat(now, m.generation, m.stage, m.progress);
      }
      if error.Some? {
        return Err(error.value);
      }
      if m.starts {
        var task := new Task(StateOf(record));
        var applied := task.Apply(Start, Actor(Agent, m.agentId), now);
        if applied.Err? {
          return applied;
        }
      }
      var updated := WriteOwnedExecution(id, execution.State(), row.version, m.agentId, m.generation, now);
      if !updated {
        return Err(LeaseExpired);
      }
      if m.starts {
        updated := WriteTask(record, InProgress, Some(id));
        if !updated {
          executions := before;
          return Err(StateConflict);
        }
      }
      return Ok(());
    }

    /** Cancel the listed executions one after the other, then the task, or nothing at all. */
    method CancelTask(record: TaskRecord, seen: DB, listed: seq<Id>, agentId: string, now: int) returns (r: Result<()>)
      modifies this
      ensures var spec := CancelTx(old(View()), record, seen, listed, agentId, now);
              r == Status(spec) && View() == Kept(spec, old(View()))
    {
      if record.row.publisherId != agentId {
        return Err(NotFound);
      }
      var before := View();
      var actor := Actor(Publisher, agentId);
      var task := new Task(StateOf(record));
      r := task.Apply(Cancel, actor, now);
      if r.Err? {
        return;
      }
      for i := 0 to |listed|
        invariant tasks == before.tasks
        invariant CancelAll(View(), seen, listed[i..], actor, now) == CancelAll(before, seen, listed, actor, now)
      {
        assert listed[i..][0] == listed[i] && listed[i..][1..] == listed[i + 1..];
        if listed[i] !in seen.executions {
          executions := before.executions;
          return Err(Internal);
        }
        var row := seen.executions[listed[i]];
        var execution := new Execution(row.state);
        r := execution.CancelBy(actor);
        if r.Err? {
          executions := before.executions;
          return;
        }
        var updated := WriteExecution(listed[i], execution.State(), row.version, now);
        if !updated {
          executions := before.executions;
          return Err(StateConflict);
        }
      }
      var updated := WriteTask(record, TaskCancelled, None);
      if !updated {
        executions := before.executions;
        return Err(StateConflict);
      }
      return Ok(());
    }

    method CancelSystemTask(record: TaskRecord, now: int) returns (r: Result<()>)
      modifies this
      ensures var spec := SystemCancelTx(old(View()), record, now);
              r == Status(spec) && View() == Kept(spec, old(View()))
    {
      var task := new Task(StateOf(record));
      r := task.Apply(Cancel, Actor(Publisher, SYSTEM_PUBLISHER), now);
      if r.Err? {
        return;
      }
      var updated := WriteTask(record, TaskCancelled, None);
      return if updated then Ok(()) else Err(StateConflict);
    }

    method UpdateSystemTaskContent(record: TaskRecord, content: string) returns (r: Result<()>)
      modifies this
      ensures var spec := ContentTx(old(View()), record, content);
              r == Status(spec) && View() == Kept(spec, old(View()))
    {
      if record.row.status != Open && record.row.status != Draft {
        return Ok(());
      }
      var updated := WriteTask(record.(row := record.row.(content := content)), record.row.status, None);
      return if updated then Ok(()) else Err(StateConflict);
    }

    method Notify(id: Id, row: ExecutionRow, intent: Intent, actor: Actor, now: int) returns (r: Result<()>)
      modifies this
      ensures var spec := NotifyTx(old(View()), id, row, intent, actor, now);
              r == Status(spec) && View() == Kept(spec, old(View()))
    {
      if AlreadyApplied(row.state.status, intent) {
        return Ok(());
      }
      var execution := new Execution(row.state);
      r := execution.Apply(intent, actor, now);
      if r.Err? {
        return;
      }
      var updated := WriteExecution(id, execution.State(), row.version, now);
      return if updated then Ok(()) else Err(StateConflict);
    }

    // ------------------------------------------------------------------ reaper

    /**
     One reaper batch over the rows its SELECTs returned. The tables end in the closed form, and
     `processed` counts exactly the tasks it changed.
     */
    method RunReaperBatch(limit: int, candidates: seq<Id>, openCandidates: seq<Id>, now: int) returns (r: Result<nat>)
      requires Inv(View())
      requires 0 < limit ==>
        && Candidates(View(), candidates, openCandidates, now) && Distinct(candidates) && Distinct(openCandidates)
        && |candidates| <= limit && |openCandidates| <= limit
      modifies this
      ensures Inv(View())
      ensures limit <= 0 ==> r == Err(InvalidArgument) && View() == old(View())
      ensures 0 < limit ==> View() == Reaped(old(View()), candidates, openCandidates, now)
      ensures 0 < limit ==> r == Ok(|ChangedTasks(old(View()), View())|)
    {
      if limit <= 0 {
        return Err(InvalidArgument);
      }
      ReapedInTwo(View(), candidates, openCandidates, now);
      var released := ReapCandidates(candidates, now);
      var expired := ReapOpenCandidates(openCandidates, now);
      return Ok(released + expired);
    }

    method ReapCandidates(candidates: seq<Id>, now: int) returns (processed: nat)
      modifies this
      ensures View() == ReapExecutions(old(View()), candidates, now)
      ensures processed == Released(old(View()), candidates, now)
    {
      processed := 0;
      for i := 0 to |candidates|
        invariant ReapExecutions(View(), candidates[i..], now) == ReapExecutions(old(View()), candidates, now)
        invariant processed + Released(View(), candidates[i..], now) == Released(old(View()), candidates, now)
      {
        assert candidates[i..][0] == candidates[i] && candidates[i..][1..] == candidates[i + 1..];
        var released := ExpireExecution(candidates[i], now);
        if released {
          processed := processed + 1;
        }
      }
      assert candidates[|candidates|..] == [];
    }

    method ReapOpenCandidates(openCandidates: seq<Id>, now: int) returns (processed: nat)
      requires Candidates(View(), [], openCandidates, now) && Distinct(openCandidates)
      modifies this
      ensures View() == ReapOpens(old(View()), openCandidates, now)
      ensures processed == |openCandidates|
    {
      processed := 0;
      for i := 0 to |openCandidates|
        invariant ReapOpens(View(), openCandidates[i..], now) == ReapOpens(old(View()), openCandidates, now)
        invariant processed == i
        invariant forall j :: i <= j < |openCandidates| ==> TaskDue(View(), openCandidates[j], now)
      {
        assert openCandidates[i..][0] == openCandidates[i] && openCandidates[i..][1..] == openCandidates[i + 1..];
        var row := tasks[openCandidates[i]];
        var task := new Task(TaskState(row.publisherId, row.deadline, Open, ""));
        var applied := task.Apply(Expire, Actor(System, "reaper"), now);
        if applied.Err? {
          assert false;
        }
        tasks := tasks[openCandidates[i] := row.(status := TaskExpired, version := row.version + 1)];
        processed := processed + 1;
      }
      assert openCandidates[|openCandidates|..] == [];
    }

    method ExpireExecution(id: Id, now: int) returns (released: bool)
      modifies this
      ensures Written(View(), released) == ReapExecution(old(View()), id, now)
    {
      if !(id in executions && (executions[id].state.status == Leased || executions[id].state.status == Running)) {
        return false;
      }
      var row := executions[id];
      executions := executions[id := row.(state := row.state.(status := Expired), version := row.version + 1, expiredAt := Some(now))];
      var taskId := row.state.taskId;
      if !(&& taskId in tasks && tasks[taskId].active == Some(id)
           && (tasks[taskId].status == Claimed || tasks[taskId].status == InProgress))
      {
        return false;
      }
      var task := tasks[taskId];
      var target := if now < task.deadline then Open else TaskExpired;
      tasks := tasks[taskId := task.(status := target, version := task.version + 1, active := None)];
      return true;
    }
  }

  // ------------------------------------------------- what the batch count means

  function ChangedTasks(a: DB, b: DB): set<Id> {
    set t | t in a.tasks && t in b.tasks && a.tasks[t] != b.tasks[t]
  }

  predicate Changes(a: DB, b: DB, t: Id) {
    t in a.tasks && t in b.tasks && a.tasks[t] != b.tasks[t]
  }

  /** A task released first is never touched again by the rest of the batch. */
  lemma ReleaseStep(db: DB, id: Id, rest: seq<Id>, now: int, t: Id)
    requires Inv(db)
    ensures var w := ReapExecution(db, id, now);
            var r := Reaped(w.db, rest, [], now);
            var own := w.updated && t == db.executions[id].state.taskId;
            && (Changes(db, r, t) <==> Changes(w.db, r, t) || own)
            && !(Changes(w.db, r, t) && own)
  {
    var w := ReapExecution(db, id, now);
    assert t in db.tasks ==> TaskOk(db, t);
    if w.updated && t == db.executions[id].state.taskId {
      assert !Detached(w.db, t, rest);
    }
  }

  lemma {:induction false} ReleasedCountsTasks(db: DB, ids: seq<Id>, now: int)
    requires Inv(db)
    ensures |ChangedTasks(db, ReapExecutions(db, ids, now))| == Released(db, ids, now)
    decreases |ids|
  {
    if ids == [] {
      assert ChangedTasks(db, db) == {};
    } else {
      var id, rest := ids[0], ids[1..];
      var w := ReapExecution(db, id, now);
      ReapExecutionKeeps(db, id, now);
      ReleasedCountsTasks(w.db, rest, now);
      ReapExecutionsEffect(w.db, rest, now);
      var r := Reaped(w.db, rest, [], now);
      assert ReapExecutions(db, ids, now) == r;
      ReleaseSets(db, id, rest, now);
    }
  }

  lemma CountSplit(a: DB, b: DB, r: DB, own: set<Id>)
    requires forall t :: (Changes(a, r, t) <==> Changes(b, r, t) || t in own) && !(Changes(b, r, t) && t in own)
    ensures |ChangedTasks(a, r)| == |ChangedTasks(b, r)| + |own|
  {
    forall t
      ensures t in ChangedTasks(a, r) <==> t in ChangedTasks(b, r) + own
    {
      assert Changes(a, r, t) <==> t in ChangedTasks(a, r);
      assert Changes(b, r, t) <==> t in ChangedTasks(b, r);
    }
    assert ChangedTasks(a, r) == ChangedTasks(b, r) + own;
    assert ChangedTasks(b, r) !! own by {
      forall t | t in own
        ensures t !in ChangedTasks(b, r)
      {
        assert Changes(b, r, t) <==> t in ChangedTasks(b, r);
      }
    }
  }

  lemma ReleaseSets(db: DB, id: Id, rest: seq<Id>, now: int)
    requires Inv(db)
    ensures var w := ReapExecution(db, id, now);
            var r := Reaped(w.db, rest, [], now);
            |ChangedTasks(db, r)| == |ChangedTasks(w.db, r)| + if w.updated then 1 else 0
  {
    var w := ReapExecution(db, id, now);
    var r := Reaped(w.db, rest, [], now);
    var own := if w.updated then {db.executions[id].state.taskId} else {};
    forall t
      ensures (Changes(db, r, t) <==> Changes(w.db, r, t) || t in own) && !(Changes(w.db, r, t) && t in own)
    {
      ReleaseStep(db, id, rest, now, t);
    }
    CountSplit(db, w.db, r, own);
  }

  lemma OpenCandidatesStay(db: DB, executions: seq<Id>, tasks: seq<Id>, now: int)
    requires Inv(db) && Candidates(db, executions, tasks, now)
    ensures Candidates(ReapExecutions(db, executions, now), [], tasks, now)
  {
    ReapExecutionsEffect(db, executions, now);
    forall i | 0 <= i < |tasks|
      ensures TaskDue(ReapExecutions(db, executions, now), tasks[i], now)
    {
      assert TaskDue(db, tasks[i], now);
    }
  }

  lemma ChangeAt(db: DB, executions: seq<Id>, tasks: seq<Id>, now: int, t: Id)
    requires Inv(db) && Candidates(db, executions, tasks, now)
    ensures Changes(db, Reaped(db, executions, tasks, now), t)
            <==> Changes(db, Reaped(db, executions, [], now), t) || t in tasks
    ensures !(Changes(db, Reaped(db, executions, [], now), t) && t in tasks)
  {
    if t in tasks {
      var i :| 0 <= i < |tasks| && tasks[i] == t;
      assert TaskDue(db, tasks[i], now);
    }
  }

  lemma ProcessedCountsTasks(db: DB, executions: seq<Id>, tasks: seq<Id>, now: int)
    requires Inv(db) && Candidates(db, executions, tasks, now) && Distinct(tasks)
    ensures |ChangedTasks(db, Reaped(db, executions, tasks, now))| == Released(db, executions, now) + |tasks|
  {
    ReleasedCountsTasks(db, executions, now);
    ReapExecutionsEffect(db, executions, now);
    var released, all := Reaped(db, executions, [], now), Reaped(db, executions, tasks, now);
    DistinctCount(tasks);
    forall t
      ensures t in ChangedTasks(db, all) <==> t in ChangedTasks(db, released) || t in Elements(tasks)
      ensures !(t in ChangedTasks(db, released) && t in Elements(tasks))
    {
      ChangeAt(db, executions, tasks, now, t);
      assert Changes(db, all, t) <==> t in ChangedTasks(db, all);
      assert Changes(db, released, t) <==> t in ChangedTasks(db, released);
    }
    assert ChangedTasks(db, all) == ChangedTasks(db, released) + Elements(tasks);
  }

  lemma ReapedInTwo(db: DB, executions: seq<Id>, tasks: seq<Id>, now: int)
    requires Inv(db) && Candidates(db, executions, tasks, now) && Distinct(tasks)
    ensures var mid := ReapExecutions(db, executions, now);
            var r := ReapOpens(mid, tasks, now);
            && Candidates(mid, [], tasks, now)
            && Inv(r) && r == Reaped(db, executions, tasks, now)
            && |ChangedTasks(db, r)| == Released(db, executions, now) + |tasks|
  {
    ReapKeeps(db, executions, tasks, now);
    ReapEffect(db, executions, tasks, now);
    OpenCandidatesStay(db, executions, tasks, now);
    ProcessedCountsTasks(db, executions, tasks, now);
  }
}

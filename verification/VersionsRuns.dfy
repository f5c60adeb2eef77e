/**
 Whole runs of the version lifecycle: every read happens at some earlier point of the run, only the
 agent's lock and the guarded writes tie it to the commit.
 */
module VersionsRuns {
  import opened Common
  import opened Scoring
  import opened Harvest
  import opened HarvestTheorems
  import opened Versions
  import opened VersionsInvariant

  datatype Op =
    | Register(agentId: Id, versionId: Id)
    | CreateDraft(agentId: Id, versionId: Id)
    | StartRun(agentId: Id, versionId: Id, runId: Id, rule: string, now: int, plan: seq<string>, security: map<string, bool>, executor: Executor)
    | HarvestRun(runId: Id, observe: Observer, now: int, timeout: int)
    | BackfillTask(runId: Id, k: string, taskId: string)
    | FailPublish(runId: Id, k: string, message: string)
    | CompleteRun(agentId: Id, versionId: Id, runId: Id, thresholds: seq<Threshold>, summary: Summary, now: int)
    | Promote(agentId: Id, versionId: Id, active: Option<Id>)
    | Rollback(agentId: Id, versionId: Id)

  /** `readAt` is where the unlocked read (or, under the agent's lock, the read of the target) saw the tables. */
  datatype Step = Step(op: Op, readAt: nat, expectedAt: nat, lockedAt: nat, activeAt: nat)

  predicate Locks(op: Op, agentId: Id) {
    (op.Promote? || op.Rollback?) && op.agentId == agentId
  }

  /** The outcome of an operation that commits against `db`, with its reads taken from the other states. */
  function Commit(op: Op, seen: DB, expecting: DB, db: DB): Result<DB>
    requires RunsPlanned(db)
  {
    match op
    case Register(agentId, versionId) => RegisterTx(db, agentId, versionId)
    case CreateDraft(agentId, versionId) => CreateDraftTx(db, agentId, versionId)
    case StartRun(agentId, versionId, runId, rule, now, plan, security, executor) =>
      StartRunTx(db, seen, agentId, versionId, runId, rule, now, plan, security, executor)
    case HarvestRun(runId, observe, now, timeout) => HarvestRunTx(db, seen, runId, observe, now, timeout)
    case BackfillTask(runId, k, taskId) => TaskIdTx(db, runId, k, taskId)
    case FailPublish(runId, k, message) => PublishFailureTx(db, runId, k, message)
    case CompleteRun(agentId, versionId, runId, thresholds, summary, now) =>
      CompleteRunTx(db, seen, agentId, versionId, runId, thresholds, summary, now)
    case Promote(agentId, versionId, active) =>
      if agentId !in expecting.agents then Err(NotFound)
      else PromoteTx(db, seen, expecting.agents[agentId], active, agentId, versionId)
    case Rollback(agentId, versionId) => RollbackTx(db, seen, agentId, versionId)
  }

  ghost predicate RunsPlanned(db: DB) {
    forall r :: r in db.runs ==> WellPlanned(db.runs[r])
  }

  /** Under the agent's lock no other promotion or rollback of the agent commits. */
  ghost predicate LockHeld(states: seq<DB>, steps: seq<Step>, i: nat)
    requires i < |steps| && |states| == |steps| + 1
  {
    var s := steps[i];
    s.op.Promote? || s.op.Rollback? ==>
      && s.expectedAt <= s.lockedAt <= s.readAt <= i
      && s.op.agentId in states[s.lockedAt].agents
      && (forall j :: s.lockedAt <= j < i ==> !Locks(steps[j].op, s.op.agentId))
      && (s.op.Promote? ==> s.lockedAt <= s.activeAt <= i && IsActiveOf(states[s.activeAt], s.op.agentId, s.op.active))
  }

  ghost predicate StepAt(states: seq<DB>, steps: seq<Step>, i: nat)
    requires i < |steps| && |states| == |steps| + 1
  {
    var s := steps[i];
    && RunsPlanned(states[i]) && s.readAt <= i && s.expectedAt <= i && LockHeld(states, steps, i)
    && var outcome := Commit(s.op, states[s.readAt], states[s.expectedAt], states[i]);
       states[i + 1] == if outcome.Ok? then outcome.value else states[i]
  }

  ghost predicate IsRun(states: seq<DB>, steps: seq<Step>) {
    && |states| == |steps| + 1
    && states[0] == DB(map[], map[], map[])
    && forall i :: 0 <= i < |steps| ==> StepAt(states, steps, i)
  }

  // ------------------------------------------------------------------ progress

  /** What no commit undoes: rows stay, agents and owners stay, statuses move forward, completed runs are frozen. */
  ghost predicate VersionsMove(before: DB, after: DB) {
    forall v :: v in before.versions ==>
      && v in after.versions
      && after.versions[v] == before.versions[v].(status := after.versions[v].status)
      && Moves(before.versions[v].status, after.versions[v].status)
  }

  predicate RunMoves(before: Run, after: Run) {
    && SamePlan(before, after)
    && (before.status != Running ==>
          after.status == before.status && after.results == before.results && after.completedAt == before.completedAt
          && after.thresholds == before.thresholds && after.summary == before.summary)
  }

  ghost predicate RunsMove(before: DB, after: DB) {
    forall r :: r in before.runs ==> r in after.runs && RunMoves(before.runs[r], after.runs[r])
  }

  ghost predicate Forward(before: DB, after: DB) {
    VersionsMove(before, after) && RunsMove(before, after) && before.agents.Keys <= after.agents.Keys
  }

  lemma WithForward(db: DB, r: Id, run: Run, status: VersionStatus)
    requires run.versionId in db.versions && Moves(db.versions[run.versionId].status, status)
    requires r in db.runs ==> RunMoves(db.runs[r], run)
    ensures Forward(db, With(db, r, run, status))
  {
  }

  /** What a commit does: it leaves the tables, or writes one run together with its version. */
  datatype Shape = Same | Pair(r: Id, run: Run, status: VersionStatus)

  ghost predicate HasShape(db: DB, after: DB, shape: Shape) {
    match shape
    case Same => after == db
    case Pair(r, run, status) =>
      && run.versionId in db.versions && after == With(db, r, run, status)
      && (r in db.runs ==> RunMoves(db.runs[r], run))
      && ((db.versions[run.versionId].status in {Draft, Evaluating} && status in {Evaluating, Eligible, Rejected}
           && Moves(db.versions[run.versionId].status, status))
          || status == db.versions[run.versionId].status)
  }

  lemma ShapeForward(db: DB, after: DB, shape: Shape)
    requires HasShape(db, after, shape)
    ensures Forward(db, after)
  {
    if shape.Pair? {
      WithForward(db, shape.r, shape.run, shape.status);
    }
  }

  lemma RowShape(db: DB, runId: Id, run: Run)
    requires Inv(db) && runId in db.runs && RunMoves(db.runs[runId], run)
    ensures run.versionId in db.versions
    ensures HasShape(db, db.(runs := db.runs[runId := run]), Pair(runId, run, db.versions[run.versionId].status))
  {
    assert RunOk(db, db.runs[runId]);
    var status := db.versions[run.versionId].status;
    assert db.versions == db.versions[run.versionId := db.versions[run.versionId].(status := status)];
  }

  lemma HarvestShape(db: DB, seen: DB, runId: Id, observe: Observer, now: int, timeout: int) returns (shape: Shape)
    requires Inv(db) && RunsPlanned(db) && HarvestRunTx(db, seen, runId, observe, now, timeout).Ok?
    ensures HasShape(db, HarvestRunTx(db, seen, runId, observe, now, timeout).value, shape)
  {
    shape := Same;
    if runId in db.runs && db.runs[runId].status == Running {
      assert RunOk(db, db.runs[runId]);
      StoredVerdict(db, seen, runId, observe, now, timeout);
      HarvestKeepsPlan(db.runs[runId], observe, now, timeout);
      var run := HarvestTx(db.runs[runId], observe, now, timeout).value;
      shape := Pair(runId, run, StatusFor(run.status));
    }
  }

  lemma StartShape(
    db: DB, seen: DB, agentId: Id, versionId: Id, runId: Id, rule: string, now: int,
    plan: seq<string>, security: map<string, bool>, executor: Executor) returns (shape: Shape)
    requires StartRunTx(db, seen, agentId, versionId, runId, rule, now, plan, security, executor).Ok?
    ensures HasShape(db, StartRunTx(db, seen, agentId, versionId, runId, rule, now, plan, security, executor).value, shape)
  {
    StartWrites(db, seen, agentId, versionId, runId, rule, now, plan, security, executor);
    var run := StartRunTx(db, seen, agentId, versionId, runId, rule, now, plan, security, executor).value.runs[runId];
    shape := Pair(runId, run, StatusFor(run.status));
  }

  lemma CompleteShape(
    db: DB, seen: DB, agentId: Id, versionId: Id, runId: Id, thresholds: seq<Threshold>, summary: Summary, now: int)
    returns (shape: Shape)
    requires Inv(db) && (runId in seen.runs && runId in db.runs ==> seen.runs[runId].versionId == db.runs[runId].versionId)
    requires CompleteRunTx(db, seen, agentId, versionId, runId, thresholds, summary, now).Ok?
    ensures HasShape(db, CompleteRunTx(db, seen, agentId, versionId, runId, thresholds, summary, now).value, shape)
  {
    assert RunOk(db, db.runs[runId]);
    var after := CompleteRunTx(db, seen, agentId, versionId, runId, thresholds, summary, now).value;
    var run := after.runs[runId];
    shape := Pair(runId, run, StatusFor(run.status));
    assert after == With(db, runId, run, StatusFor(run.status));
  }

  lemma BackfillShape(db: DB, runId: Id, k: string, taskId: string) returns (shape: Shape)
    requires Inv(db) && TaskIdTx(db, runId, k, taskId).Ok?
    ensures HasShape(db, TaskIdTx(db, runId, k, taskId).value, shape)
  {
    var run := SetTaskId(db.runs[runId], k, taskId).value;
    assert run.tasks.Keys == db.runs[runId].tasks.Keys;
    RowShape(db, runId, run);
    shape := Pair(runId, run, db.versions[run.versionId].status);
  }

  lemma FailPublishShape(db: DB, runId: Id, k: string, message: string) returns (shape: Shape)
    requires Inv(db) && PublishFailureTx(db, runId, k, message).Ok?
    ensures HasShape(db, PublishFailureTx(db, runId, k, message).value, shape)
  {
    var run := RecordPublishFailure(db.runs[runId], k, message).value;
    assert run.tasks.Keys == db.runs[runId].tasks.Keys;
    RowShape(db, runId, run);
    shape := Pair(runId, run, db.versions[run.versionId].status);
  }

  predicate MovesRuns(op: Op) {
    !(op.Register? || op.CreateDraft? || op.Promote? || op.Rollback?)
  }

  lemma CommitShape(op: Op, seen: DB, expecting: DB, db: DB) returns (shape: Shape)
    requires Inv(db) && RunsPlanned(db) && GoodReads(op, seen, db) && Commit(op, seen, expecting, db).Ok? && MovesRuns(op)
    ensures HasShape(db, Commit(op, seen, expecting, db).value, shape)
  {
    match op {
      case StartRun(agentId, versionId, runId, rule, now, plan, security, executor) =>
        shape := StartShape(db, seen, agentId, versionId, runId, rule, now, plan, security, executor);
      case HarvestRun(runId, observe, now, timeout) => shape := HarvestShape(db, seen, runId, observe, now, timeout);
      case BackfillTask(runId, k, taskId) => shape := BackfillShape(db, runId, k, taskId);
      case FailPublish(runId, k, message) => shape := FailPublishShape(db, runId, k, message);
      case CompleteRun(agentId, versionId, runId, thresholds, summary, now) =>
        shape := CompleteShape(db, seen, agentId, versionId, runId, thresholds, summary, now);
    }
  }

  /** The reads that a commit needs to be as the tables still are. */
  ghost predicate GoodReads(op: Op, seen: DB, db: DB) {
    && (op.Promote? ==> ReadUnderLock(seen, db, op.agentId, op.versionId) && IsActiveOf(db, op.agentId, op.active))
    && (op.Rollback? ==> ReadUnderLock(seen, db, op.agentId, op.versionId))
    && (op.CompleteRun? && op.runId in seen.runs && op.runId in db.runs ==> seen.runs[op.runId].versionId == db.runs[op.runId].versionId)
  }

  lemma PromotedForward(db: DB, active: Option<Id>, agentId: Id, versionId: Id)
    requires versionId in db.versions && db.versions[versionId].status == Eligible && agentId in db.agents
    requires IsActiveOf(db, agentId, active)
    ensures Forward(db, Promoted(db, active, agentId, versionId))
  {
  }

  lemma AgentsMove(op: Op, seen: DB, expecting: DB, db: DB)
    requires RunsPlanned(db) && GoodReads(op, seen, db) && Commit(op, seen, expecting, db).Ok? && !MovesRuns(op)
    ensures Forward(db, Commit(op, seen, expecting, db).value)
  {
    if op.Promote? {
      PromoteEffect(db, seen, expecting.agents[op.agentId], op.active, op.agentId, op.versionId);
      PromotedForward(db, op.active, op.agentId, op.versionId);
    }
  }

  lemma CommitMoves(op: Op, seen: DB, expecting: DB, db: DB)
    requires Inv(db) && RunsPlanned(db) && GoodReads(op, seen, db) && Commit(op, seen, expecting, db).Ok?
    ensures Forward(db, Commit(op, seen, expecting, db).value)
  {
    if MovesRuns(op) {
      var shape := CommitShape(op, seen, expecting, db);
      ShapeForward(db, Commit(op, seen, expecting, db).value, shape);
    } else {
      AgentsMove(op, seen, expecting, db);
    }
  }

  lemma RunsKeep(op: Op, seen: DB, expecting: DB, db: DB)
    requires Inv(db) && RunsPlanned(db) && GoodReads(op, seen, db) && Commit(op, seen, expecting, db).Ok? && MovesRuns(op)
    ensures Inv(Commit(op, seen, expecting, db).value)
  {
    match op {
      case StartRun(agentId, versionId, runId, rule, now, plan, security, executor) =>
        StartRunKeeps(db, seen, agentId, versionId, runId, rule, now, plan, security, executor);
      case HarvestRun(runId, observe, now, timeout) => HarvestKeeps(db, seen, runId, observe, now, timeout);
      case BackfillTask(runId, k, taskId) => BackfillKeeps(db, runId, k, taskId);
      case FailPublish(runId, k, message) => FailPublishKeeps(db, runId, k, message);
      case CompleteRun(agentId, versionId, runId, thresholds, summary, now) =>
        CompleteRunKeeps(db, seen, agentId, versionId, runId, thresholds, summary, now);
    }
  }

  lemma BackfillKeeps(db: DB, runId: Id, k: string, taskId: string)
    requires Inv(db) && TaskIdTx(db, runId, k, taskId).Ok?
    ensures Inv(TaskIdTx(db, runId, k, taskId).value)
  {
    var run := SetTaskId(db.runs[runId], k, taskId).value;
    assert run.tasks.Keys == db.runs[runId].tasks.Keys;
    RowKeeps(db, runId, run);
  }

  lemma FailPublishKeeps(db: DB, runId: Id, k: string, message: string)
    requires Inv(db) && PublishFailureTx(db, runId, k, message).Ok?
    ensures Inv(PublishFailureTx(db, runId, k, message).value)
  {
    var run := RecordPublishFailure(db.runs[runId], k, message).value;
    assert run.tasks.Keys == db.runs[runId].tasks.Keys;
    RowKeeps(db, runId, run);
  }

  lemma AgentsKeep(op: Op, seen: DB, expecting: DB, db: DB)
    requires Inv(db) && RunsPlanned(db) && GoodReads(op, seen, db) && Commit(op, seen, expecting, db).Ok? && !MovesRuns(op)
    ensures Inv(Commit(op, seen, expecting, db).value)
  {
    match op {
      case Register(agentId, versionId) => RegisterKeeps(db, agentId, versionId);
      case CreateDraft(agentId, versionId) => CreateDraftKeeps(db, agentId, versionId);
      case Promote(agentId, versionId, active) => PromoteKeeps(db, seen, expecting.agents[agentId], active, agentId, versionId);
      case Rollback(agentId, versionId) => RollbackKeeps(db, seen, agentId, versionId);
    }
  }

  lemma CommitKeeps(op: Op, seen: DB, expecting: DB, db: DB)
    requires Inv(db) && RunsPlanned(db) && GoodReads(op, seen, db) && Commit(op, seen, expecting, db).Ok?
    ensures Inv(Commit(op, seen, expecting, db).value)
  {
    if MovesRuns(op) {
      RunsKeep(op, seen, expecting, db);
    } else {
      AgentsKeep(op, seen, expecting, db);
    }
  }

  // -------------------------------------------------------------- under the lock

  /** Nothing of the agent that its lock protects has changed. */
  ghost predicate Undisturbed(before: DB, after: DB, agentId: Id) {
    && agentId in before.agents && agentId in after.agents
    && (forall v :: v in before.versions && before.versions[v].agentId == agentId && CanRollbackTo(before.versions[v].status) ==>
          v in after.versions && after.versions[v] == before.versions[v])
    && (forall v :: IsActive(after, v, agentId) ==> IsActive(before, v, agentId))
  }

  lemma ShapeUndisturbed(db: DB, after: DB, shape: Shape, agentId: Id)
    requires agentId in db.agents && HasShape(db, after, shape)
    ensures Undisturbed(db, after, agentId)
  {
  }

  lemma PromotedUndisturbed(db: DB, active: Option<Id>, other: Id, versionId: Id, agentId: Id)
    requires agentId in db.agents && versionId in db.versions && db.versions[versionId].agentId == other != agentId
    requires IsActiveOf(db, other, active)
    ensures Undisturbed(db, Promoted(db, active, other, versionId), agentId)
  {
  }

  lemma AgentsUndisturbed(op: Op, seen: DB, expecting: DB, db: DB, agentId: Id)
    requires RunsPlanned(db) && GoodReads(op, seen, db) && Commit(op, seen, expecting, db).Ok? && !MovesRuns(op)
    requires agentId in db.agents && !Locks(op, agentId)
    ensures Undisturbed(db, Commit(op, seen, expecting, db).value, agentId)
  {
    if op.Promote? {
      PromoteEffect(db, seen, expecting.agents[op.agentId], op.active, op.agentId, op.versionId);
      PromotedUndisturbed(db, op.active, op.agentId, op.versionId, agentId);
    }
  }

  lemma CommitLeavesOthers(op: Op, seen: DB, expecting: DB, db: DB, agentId: Id)
    requires Inv(db) && RunsPlanned(db) && GoodReads(op, seen, db) && Commit(op, seen, expecting, db).Ok?
    requires agentId in db.agents && !Locks(op, agentId)
    ensures Undisturbed(db, Commit(op, seen, expecting, db).value, agentId)
  {
    if MovesRuns(op) {
      var shape := CommitShape(op, seen, expecting, db);
      ShapeUndisturbed(db, Commit(op, seen, expecting, db).value, shape, agentId);
    } else {
      AgentsUndisturbed(op, seen, expecting, db, agentId);
    }
  }

  lemma UndisturbedReads(before: DB, after: DB, agentId: Id, versionId: Id, active: Option<Id>)
    requires Undisturbed(before, after, agentId)
    ensures ReadUnderLock(before, after, agentId, versionId)
    ensures IsActiveOf(before, agentId, active) ==> IsActiveOf(after, agentId, active)
  {
    if IsActiveOf(before, agentId, active) && active.None? {
      forall v | v in after.versions && after.versions[v].agentId == agentId ensures after.versions[v].status != Active {
        assert !IsActive(before, v, agentId);
      }
    }
  }

  // ----------------------------------------------------------------- whole runs

  /** Everything up to `n` keeps the invariant, and every step so far read what it may rely on. */
  ghost predicate Sound(states: seq<DB>, steps: seq<Step>, n: nat)
    requires n < |states| == |steps| + 1
  {
    forall i :: 0 <= i < n ==> SoundAt(states, steps, i)
  }

  ghost predicate SoundAt(states: seq<DB>, steps: seq<Step>, i: nat)
    requires i < |steps| && |states| == |steps| + 1
  {
    Inv(states[i]) && steps[i].readAt <= i && GoodReads(steps[i].op, states[steps[i].readAt], states[i])
  }

  lemma {:induction false} RunsPersist(states: seq<DB>, steps: seq<Step>, m: nat, n: nat)
    requires IsRun(states, steps) && m <= n < |states| && Sound(states, steps, n)
    ensures RunsMove(states[m], states[n]) && states[m].agents.Keys <= states[n].agents.Keys
    decreases n
  {
    if m < n {
      RunsPersist(states, steps, m, n - 1);
      StepRunsMove(states, steps, n - 1);
      RunsMoveOn(states[m], states[n - 1], states[n]);
    }
  }

  lemma StepRunsMove(states: seq<DB>, steps: seq<Step>, i: nat)
    requires IsRun(states, steps) && i < |steps| && Sound(states, steps, i + 1)
    ensures RunsMove(states[i], states[i + 1]) && states[i].agents.Keys <= states[i + 1].agents.Keys
  {
    assert SoundAt(states, steps, i);
    StepMoves(states, steps, i);
  }

  lemma RunsMoveOn(a: DB, b: DB, c: DB)
    requires RunsMove(a, b) && RunsMove(b, c)
    ensures RunsMove(a, c)
  {
    forall r | r in a.runs ensures r in c.runs && RunMoves(a.runs[r], c.runs[r]) {
      assert RunMoves(a.runs[r], b.runs[r]) && RunMoves(b.runs[r], c.runs[r]);
    }
  }

  lemma StepMoves(states: seq<DB>, steps: seq<Step>, i: nat)
    requires IsRun(states, steps) && i < |steps| && SoundAt(states, steps, i)
    ensures Forward(states[i], states[i + 1])
  {
    assert StepAt(states, steps, i);
    var s := steps[i];
    if Commit(s.op, states[s.readAt], states[s.expectedAt], states[i]).Ok? {
      CommitMoves(s.op, states[s.readAt], states[s.expectedAt], states[i]);
    }
  }

  lemma StepLeavesOthers(states: seq<DB>, steps: seq<Step>, i: nat, agentId: Id)
    requires IsRun(states, steps) && i < |steps| && SoundAt(states, steps, i)
    requires agentId in states[i].agents && !Locks(steps[i].op, agentId)
    ensures Undisturbed(states[i], states[i + 1], agentId)
  {
    assert StepAt(states, steps, i);
    var s := steps[i];
    if Commit(s.op, states[s.readAt], states[s.expectedAt], states[i]).Ok? {
      CommitLeavesOthers(s.op, states[s.readAt], states[s.expectedAt], states[i], agentId);
    }
  }

  /** While no promotion or rollback of the agent commits, all that its lock protects stays. */
  lemma {:induction false} LockProtects(states: seq<DB>, steps: seq<Step>, m: nat, n: nat, agentId: Id)
    requires IsRun(states, steps) && m <= n < |states| && Sound(states, steps, n) && agentId in states[m].agents
    requires forall j :: m <= j < n ==> !Locks(steps[j].op, agentId)
    ensures Undisturbed(states[m], states[n], agentId)
    decreases n
  {
    if m < n {
      LockProtects(states, steps, m, n - 1, agentId);
      assert SoundAt(states, steps, n - 1);
      StepLeavesOthers(states, steps, n - 1, agentId);
    }
  }

  /** The reads of every step are good: what its lock or its guards need is still so at the commit. */
  lemma ReadsAreGood(states: seq<DB>, steps: seq<Step>, i: nat)
    requires IsRun(states, steps) && i < |steps| && Sound(states, steps, i)
    ensures steps[i].readAt <= i && GoodReads(steps[i].op, states[steps[i].readAt], states[i])
  {
    assert StepAt(states, steps, i) && LockHeld(states, steps, i);
    var s := steps[i];
    if s.op.Promote? || s.op.Rollback? {
      RunsPersist(states, steps, s.lockedAt, s.readAt);
      LockProtects(states, steps, s.readAt, i, s.op.agentId);
      UndisturbedReads(states[s.readAt], states[i], s.op.agentId, s.op.versionId, None);
      if s.op.Promote? {
        RunsPersist(states, steps, s.lockedAt, s.activeAt);
        LockProtects(states, steps, s.activeAt, i, s.op.agentId);
        UndisturbedReads(states[s.activeAt], states[i], s.op.agentId, s.op.versionId, s.op.active);
      }
    } else {
      RunsPersist(states, steps, s.readAt, i);
    }
  }

  /** The joint invariant holds in every state of every run. */
  lemma {:induction false} EveryStateIsInv(states: seq<DB>, steps: seq<Step>, n: nat)
    requires IsRun(states, steps) && n < |states|
    ensures Inv(states[n]) && Sound(states, steps, n)
  {
    if n == 0 {
      EmptyIsInv();
    } else {
      EveryStateIsInv(states, steps, n - 1);
      ReadsAreGood(states, steps, n - 1);
      assert SoundAt(states, steps, n - 1) && StepAt(states, steps, n - 1);
      var s := steps[n - 1];
      if Commit(s.op, states[s.readAt], states[s.expectedAt], states[n - 1]).Ok? {
        CommitKeeps(s.op, states[s.readAt], states[s.expectedAt], states[n - 1]);
      }
    }
  }

  // ------------------------------------------------------------------- theorems

  /** The run of a version that is past draft and was not created by registration. */
  lemma BackedByRun(db: DB, v: Id)
    requires Inv(db) && v in db.versions
    ensures !db.versions[v].registered && db.versions[v].status != Draft ==>
              (|| (db.versions[v].status == Evaluating && HasRun(db, v, Running))
               || (CanRollbackTo(db.versions[v].status) && HasRun(db, v, Passed))
               || (db.versions[v].status == Rejected && HasRun(db, v, NotPassed)))
    ensures forall r, status :: r in db.runs && db.runs[r].versionId == v && HasRun(db, v, status) ==> status == db.runs[r].status
  {
    assert VersionOk(db, v);
    if !db.versions[v].registered && db.versions[v].status != Draft {
      var r :| r in db.runs && db.runs[r].versionId == v;
      assert RunOk(db, db.runs[r]) && HasRun(db, v, db.runs[r].status);
    }
  }

  /**
   Safety of every reachable state: a version is evaluated at most once; a running run means its
   version is evaluating; a version that is eligible, active or retired, unless registration created
   it, has passed its run, and a rejected one has failed it; an agent has at most one active version,
   and its current version is always one that may be rolled back to.
   */
  lemma ReachableIsSafe(states: seq<DB>, steps: seq<Step>, n: nat, v: Id)
    requires IsRun(states, steps) && n < |states| && v in states[n].versions
    ensures var db := states[n];
            && OneRun(db) && OneActive(db) && AgentsOk(db)
            && (forall r :: r in db.runs && db.runs[r].status == Running ==>
                  db.runs[r].versionId in db.versions && db.versions[db.runs[r].versionId].status == Evaluating)
            && (!db.versions[v].registered && CanRollbackTo(db.versions[v].status) ==> HasRun(db, v, Passed))
            && (db.versions[v].status == Rejected ==> HasRun(db, v, NotPassed))
            && (db.versions[v].status == Evaluating ==> HasRun(db, v, Running))
  {
    EveryStateIsInv(states, steps, n);
    BackedByRun(states[n], v);
    assert VersionOk(states[n], v);
    forall r | r in states[n].runs && states[n].runs[r].status == Running
      ensures states[n].runs[r].versionId in states[n].versions && states[n].versions[states[n].runs[r].versionId].status == Evaluating
    {
      assert RunOk(states[n], states[n].runs[r]);
    }
  }

  /**
   A promotion that commits acts on the tables as they are: its target is eligible and has passed, the
   version it retires is the agent's active one, the current version is still the expected one, and
   afterwards the target is the only active version and the current one.
   */
  lemma PromotionIsSerial(states: seq<DB>, steps: seq<Step>, i: nat)
    requires IsRun(states, steps) && i < |steps| && steps[i].op.Promote?
    requires steps[i].readAt <= i && steps[i].expectedAt <= i && RunsPlanned(states[i])
    requires Commit(steps[i].op, states[steps[i].readAt], states[steps[i].expectedAt], states[i]).Ok?
    ensures var op, db, after := steps[i].op, states[i], states[i + 1];
            && IsActiveOf(db, op.agentId, op.active) && op.versionId in db.versions && db.versions[op.versionId].status == Eligible
            && HasRun(db, op.versionId, Passed)
            && op.agentId in db.agents && op.agentId in states[steps[i].expectedAt].agents
            && db.agents[op.agentId] == states[steps[i].expectedAt].agents[op.agentId]
            && IsActive(after, op.versionId, op.agentId) && OneActive(after)
            && op.agentId in after.agents && after.agents[op.agentId] == Some(op.versionId)
  {
    EveryStateIsInv(states, steps, i);
    ReadsAreGood(states, steps, i);
    assert StepAt(states, steps, i);
    var op, s := steps[i].op, steps[i];
    PromoteEffect(states[i], states[s.readAt], states[s.expectedAt].agents[op.agentId], op.active, op.agentId, op.versionId);
    PromoteKeeps(states[i], states[s.readAt], states[s.expectedAt].agents[op.agentId], op.active, op.agentId, op.versionId);
  }

  /** A completed run keeps its verdict, results and completion time in every later state. */
  lemma VerdictIsFinal(states: seq<DB>, steps: seq<Step>, m: nat, n: nat, r: Id)
    requires IsRun(states, steps) && m <= n < |states| && r in states[m].runs && states[m].runs[r].status != Running
    ensures r in states[n].runs && states[n].runs[r].status == states[m].runs[r].status
    ensures states[n].runs[r].results == states[m].runs[r].results && states[n].runs[r].completedAt == states[m].runs[r].completedAt
  {
    EveryStateIsInv(states, steps, n);
    RunsPersist(states, steps, m, n);
  }

  lemma HarvestCommits(db: DB, seen: DB, r: Id, observe: Observer, now: int, timeout: int, run: Run)
    requires r in db.runs && WellPlanned(db.runs[r]) && db.runs[r].status == Running
    requires HarvestTx(db.runs[r], observe, now, timeout) == Ok(run) && run.status != Running
    requires run.versionId in seen.versions && run.versionId in db.versions && db.versions[run.versionId].status == Evaluating
    requires seen.versions[run.versionId].agentId == db.versions[run.versionId].agentId
    ensures HarvestRunTx(db, seen, r, observe, now, timeout) == Ok(With(db, r, run, StatusFor(run.status)))
  {
  }

  /**
   Harvest progress with its version: in every reachable state, harvesting a running run at or after
   its timeout without an observation error commits, and completes both the run and the version.
   */
  lemma TimeoutAlwaysCompletes(states: seq<DB>, steps: seq<Step>, n: nat, seen: DB, r: Id, observe: Observer, now: int, timeout: int)
    requires IsRun(states, steps) && n < |states| && r in states[n].runs && states[n].runs[r].status == Running
    requires WellPlanned(states[n].runs[r]) && !ObservationFails(states[n].runs[r], observe)
    requires states[n].runs[r].startedAt + timeout <= now
    requires var v := states[n].runs[r].versionId;
             v in seen.versions && v in states[n].versions && seen.versions[v].agentId == states[n].versions[v].agentId
    ensures HarvestRunTx(states[n], seen, r, observe, now, timeout).Ok?
    ensures var after := HarvestRunTx(states[n], seen, r, observe, now, timeout).value;
            && r in after.runs && after.runs[r].status != Running
            && after.runs[r].versionId in after.versions
            && after.versions[after.runs[r].versionId].status == if after.runs[r].status == Passed then Eligible else Rejected
  {
    EveryStateIsInv(states, steps, n);
    assert RunOk(states[n], states[n].runs[r]);
    TimeoutCompletes(states[n].runs[r], observe, now, timeout);
    HarvestKeepsPlan(states[n].runs[r], observe, now, timeout);
    var run := HarvestTx(states[n].runs[r], observe, now, timeout).value;
    HarvestCommits(states[n], seen, r, observe, now, timeout, run);
  }
}

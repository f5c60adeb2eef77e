/**
 The joint invariant of versions, evaluation runs and current versions, and its preservation by
 every transaction, whatever state its unlocked reads came from.
 */
module VersionsInvariant {
  import opened Common
  import opened Scoring
  import opened Harvest
  import opened HarvestTheorems
  import opened Versions

  /** The version's status where its run stands. */
  predicate Agrees(version: VersionStatus, run: RunStatus) {
    match run
    case Running => version == Evaluating
    case Passed => CanRollbackTo(version)
    case NotPassed => version == Rejected
  }

  /** A run belongs to a version created as a draft, and the two agree. */
  ghost predicate RunOk(db: DB, run: Run) {
    && WellPlanned(run) && run.rule == RULE_V1 && run.versionId != ""
    && run.versionId in db.versions && !db.versions[run.versionId].registered
    && Agrees(db.versions[run.versionId].status, run.status)
  }

  ghost predicate RunsOk(db: DB) {
    forall r :: r in db.runs ==> RunOk(db, db.runs[r])
  }

  /** A version is evaluated at most once. */
  ghost predicate OneRun(db: DB) {
    forall r, o :: r in db.runs && o in db.runs && db.runs[r].versionId == db.runs[o].versionId ==> r == o
  }

  ghost predicate Evaluated(db: DB, v: Id) {
    exists r :: r in db.runs && db.runs[r].versionId == v
  }

  /** A version past draft is backed by a run, unless registration created it. */
  ghost predicate VersionOk(db: DB, v: Id)
    requires v in db.versions
  {
    && db.versions[v].agentId in db.agents
    && (db.versions[v].registered ==> db.versions[v].status == Active || db.versions[v].status == Retired)
    && (!db.versions[v].registered && db.versions[v].status != Draft ==> Evaluated(db, v))
  }

  ghost predicate VersionsOk(db: DB) {
    forall v :: v in db.versions ==> VersionOk(db, v)
  }

  ghost predicate AgentOk(db: DB, a: Id)
    requires a in db.agents
  {
    && db.agents[a].Some?
    && db.agents[a].value in db.versions
    && db.versions[db.agents[a].value].agentId == a
    && CanRollbackTo(db.versions[db.agents[a].value].status)
  }

  ghost predicate AgentsOk(db: DB) {
    forall a :: a in db.agents ==> AgentOk(db, a)
  }

  predicate IsActive(db: DB, v: Id, agentId: Id) {
    v in db.versions && db.versions[v].status == Active && db.versions[v].agentId == agentId
  }

  ghost predicate OneActive(db: DB) {
    forall v, w, a :: IsActive(db, v, a) && IsActive(db, w, a) ==> v == w
  }

  ghost predicate Inv(db: DB) {
    RunsOk(db) && OneRun(db) && VersionsOk(db) && AgentsOk(db) && OneActive(db)
  }

  lemma EmptyIsInv()
    ensures Inv(DB(map[], map[], map[]))
  {
  }

  /** How a version's status may move; `registered` and the agent never change. */
  predicate Moves(before: VersionStatus, after: VersionStatus) {
    || before == after
    || (before == Draft && after in {Evaluating, Eligible, Rejected})
    || (before == Evaluating && after in {Eligible, Rejected})
    || (before == Eligible && after == Active)
    || (before == Active && after == Retired)
  }

  // --------------------------------------------------------------- the writes

  /** The tables with one run written and one version's status changed. */
  function With(db: DB, r: Id, run: Run, status: VersionStatus): DB
    requires run.versionId in db.versions
  {
    db.(runs := db.runs[r := run], versions := db.versions[run.versionId := db.versions[run.versionId].(status := status)])
  }

  lemma WithRuns(db: DB, r: Id, run: Run, status: VersionStatus)
    requires RunsOk(db) && OneRun(db) && run.versionId in db.versions && !db.versions[run.versionId].registered
    requires WellPlanned(run) && run.rule == RULE_V1 && run.versionId != "" && Agrees(status, run.status)
    requires forall o :: o in db.runs && db.runs[o].versionId == run.versionId ==> o == r
    requires r in db.runs ==> db.runs[r].versionId == run.versionId
    ensures RunsOk(With(db, r, run, status)) && OneRun(With(db, r, run, status))
  {
    var after := With(db, r, run, status);
    forall o | o in after.runs ensures RunOk(after, after.runs[o]) {
      assert o != r ==> RunOk(db, db.runs[o]);
    }
  }

  lemma WithEvaluated(db: DB, r: Id, run: Run, status: VersionStatus, v: Id)
    requires run.versionId in db.versions && (r in db.runs ==> db.runs[r].versionId == run.versionId)
    ensures Evaluated(db, v) ==> Evaluated(With(db, r, run, status), v)
    ensures Evaluated(With(db, r, run, status), run.versionId)
  {
    var after := With(db, r, run, status);
    assert r in after.runs && after.runs[r].versionId == run.versionId;
    if Evaluated(db, v) {
      var o :| o in db.runs && db.runs[o].versionId == v;
      assert o in after.runs && after.runs[o].versionId == v;
    }
  }

  lemma WithVersions(db: DB, r: Id, run: Run, status: VersionStatus)
    requires VersionsOk(db) && run.versionId in db.versions && !db.versions[run.versionId].registered
    requires r in db.runs ==> db.runs[r].versionId == run.versionId
    ensures VersionsOk(With(db, r, run, status))
  {
    var after := With(db, r, run, status);
    forall v | v in after.versions ensures VersionOk(after, v) {
      assert VersionOk(db, v);
      WithEvaluated(db, r, run, status, v);
    }
  }

  lemma WithAgents(db: DB, r: Id, run: Run, status: VersionStatus)
    requires AgentsOk(db) && run.versionId in db.versions
    requires CanRollbackTo(db.versions[run.versionId].status) ==> CanRollbackTo(status)
    ensures AgentsOk(With(db, r, run, status))
  {
    var after := With(db, r, run, status);
    forall a | a in after.agents ensures AgentOk(after, a) {
      assert AgentOk(db, a);
    }
  }

  lemma WithActive(db: DB, r: Id, run: Run, status: VersionStatus)
    requires OneActive(db) && run.versionId in db.versions
    requires status == Active ==> db.versions[run.versionId].status == Active
    ensures OneActive(With(db, r, run, status))
  {
    var after := With(db, r, run, status);
    forall v, w, a | IsActive(after, v, a) && IsActive(after, w, a) ensures v == w {
      assert IsActive(db, v, a) && IsActive(db, w, a);
    }
  }

  /** Writing back a run in its place, with its version moved to agree. */
  lemma PairKeeps(db: DB, r: Id, run: Run, status: VersionStatus)
    requires Inv(db) && r in db.runs && SamePlan(db.runs[r], run) && Agrees(status, run.status)
    requires run.versionId in db.versions && (db.versions[run.versionId].status == Evaluating || status == db.versions[run.versionId].status)
    requires status != Active || db.versions[run.versionId].status == Active
    ensures Inv(With(db, r, run, status))
  {
    assert RunOk(db, db.runs[r]);
    WithRuns(db, r, run, status);
    WithVersions(db, r, run, status);
    WithAgents(db, r, run, status);
    WithActive(db, r, run, status);
  }

  /** A new run, finished or not, for a version that was a draft. */
  lemma NewRunKeeps(db: DB, r: Id, run: Run, status: VersionStatus)
    requires Inv(db) && run.versionId in db.versions && db.versions[run.versionId].status == Draft && r !in db.runs
    requires WellPlanned(run) && run.rule == RULE_V1 && run.versionId != "" && Agrees(status, run.status) && status != Active
    ensures Inv(With(db, r, run, status))
  {
    assert VersionOk(db, run.versionId);
    forall o | o in db.runs ensures db.runs[o].versionId != run.versionId {
      assert RunOk(db, db.runs[o]);
    }
    WithRuns(db, r, run, status);
    WithVersions(db, r, run, status);
    WithAgents(db, r, run, status);
    WithActive(db, r, run, status);
  }

  lemma RegisterKeeps(db: DB, agentId: Id, versionId: Id)
    requires Inv(db) && RegisterTx(db, agentId, versionId).Ok?
    ensures Inv(RegisterTx(db, agentId, versionId).value)
  {
    AddVersionKeeps(db, agentId, versionId, VersionRow(agentId, Active, true), RegisterTx(db, agentId, versionId).value);
  }

  lemma CreateDraftKeeps(db: DB, agentId: Id, versionId: Id)
    requires Inv(db) && CreateDraftTx(db, agentId, versionId).Ok?
    ensures Inv(CreateDraftTx(db, agentId, versionId).value)
  {
    AddVersionKeeps(db, agentId, versionId, VersionRow(agentId, Draft, false), CreateDraftTx(db, agentId, versionId).value);
  }

  lemma AddVersionKeeps(db: DB, agentId: Id, versionId: Id, row: VersionRow, after: DB)
    requires Inv(db) && versionId !in db.versions && row.agentId == agentId
    requires after.runs == db.runs && after.versions == db.versions[versionId := row]
    requires || (row == VersionRow(agentId, Draft, false) && after.agents == db.agents && agentId in db.agents)
             || (row == VersionRow(agentId, Active, true) && agentId !in db.agents && after.agents == db.agents[agentId := Some(versionId)])
    ensures Inv(after)
  {
    forall r | r in after.runs ensures RunOk(after, after.runs[r]) {
      assert RunOk(db, db.runs[r]);
    }
    forall v | v in after.versions ensures VersionOk(after, v) {
      if v != versionId {
        assert VersionOk(db, v);
        assert Evaluated(db, v) ==> Evaluated(after, v);
      }
    }
    forall a | a in after.agents ensures AgentOk(after, a) {
      if a in db.agents {
        assert AgentOk(db, a);
      }
    }
    forall v, w, a | IsActive(after, v, a) && IsActive(after, w, a) ensures v == w {
      assert v != versionId ==> IsActive(db, v, a) && VersionOk(db, v);
      assert w != versionId ==> IsActive(db, w, a) && VersionOk(db, w);
    }
  }

  lemma StartRunKeeps(
    db: DB, seen: DB, agentId: Id, versionId: Id, runId: Id, rule: string, now: int,
    plan: seq<string>, security: map<string, bool>, executor: Executor)
    requires Inv(db) && StartRunTx(db, seen, agentId, versionId, runId, rule, now, plan, security, executor).Ok?
    ensures Inv(StartRunTx(db, seen, agentId, versionId, runId, rule, now, plan, security, executor).value)
  {
    StartWrites(db, seen, agentId, versionId, runId, rule, now, plan, security, executor);
    var run := StartRunTx(db, seen, agentId, versionId, runId, rule, now, plan, security, executor).value.runs[runId];
    NewRunKeeps(db, runId, run, StatusFor(run.status));
  }

  /** A start writes one new run of a draft, and moves the version with it. */
  lemma StartWrites(
    db: DB, seen: DB, agentId: Id, versionId: Id, runId: Id, rule: string, now: int,
    plan: seq<string>, security: map<string, bool>, executor: Executor)
    requires StartRunTx(db, seen, agentId, versionId, runId, rule, now, plan, security, executor).Ok?
    ensures var after := StartRunTx(db, seen, agentId, versionId, runId, rule, now, plan, security, executor).value;
            && versionId in db.versions && db.versions[versionId].status == Draft && versionId != "" && runId !in db.runs
            && runId in after.runs && after.runs[runId].versionId == versionId
            && WellPlanned(after.runs[runId]) && after.runs[runId].rule == RULE_V1
            && after == With(db, runId, after.runs[runId], StatusFor(after.runs[runId].status))
  {
    var after := StartRunTx(db, seen, agentId, versionId, runId, rule, now, plan, security, executor).value;
    assert after.versions == db.versions[versionId := db.versions[versionId].(status := StatusFor(after.runs[runId].status))];
  }

  /** Where completing, or not completing, a run leaves its version. */
  function StatusFor(status: RunStatus): VersionStatus {
    match status
    case Running => Evaluating
    case Passed => Eligible
    case NotPassed => Rejected
  }

  lemma HarvestKeeps(db: DB, seen: DB, runId: Id, observe: Observer, now: int, timeout: int)
    requires Inv(db) && (runId in db.runs ==> WellPlanned(db.runs[runId]))
    requires HarvestRunTx(db, seen, runId, observe, now, timeout).Ok?
    ensures Inv(HarvestRunTx(db, seen, runId, observe, now, timeout).value)
  {
    if runId in db.runs && db.runs[runId].status == Running {
      assert RunOk(db, db.runs[runId]);
      var run := HarvestTx(db.runs[runId], observe, now, timeout).value;
      HarvestKeepsPlan(db.runs[runId], observe, now, timeout);
      StoredVerdict(db, seen, runId, observe, now, timeout);
      PairKeeps(db, runId, run, StatusFor(run.status));
    }
  }

  lemma StoredVerdict(db: DB, seen: DB, runId: Id, observe: Observer, now: int, timeout: int)
    requires runId in db.runs && WellPlanned(db.runs[runId]) && db.runs[runId].status == Running
    requires db.runs[runId].versionId in db.versions && db.versions[db.runs[runId].versionId].status == Evaluating
    requires HarvestRunTx(db, seen, runId, observe, now, timeout).Ok?
    ensures HarvestTx(db.runs[runId], observe, now, timeout).Ok?
    ensures var run := HarvestTx(db.runs[runId], observe, now, timeout).value;
            && run.versionId in db.versions
            && HarvestRunTx(db, seen, runId, observe, now, timeout).value == With(db, runId, run, StatusFor(run.status))
  {
    HarvestKeepsPlan(db.runs[runId], observe, now, timeout);
    var run := HarvestTx(db.runs[runId], observe, now, timeout).value;
    if run.status == Running {
      assert db.versions == db.versions[run.versionId := db.versions[run.versionId].(status := Evaluating)];
    }
  }

  lemma RowKeeps(db: DB, runId: Id, run: Run)
    requires Inv(db) && runId in db.runs && SamePlan(db.runs[runId], run) && run.status == db.runs[runId].status
    ensures Inv(db.(runs := db.runs[runId := run]))
  {
    assert RunOk(db, db.runs[runId]);
    var status := db.versions[run.versionId].status;
    assert db.versions == db.versions[run.versionId := db.versions[run.versionId].(status := status)];
    PairKeeps(db, runId, run, status);
  }

  lemma CompleteRunKeeps(
    db: DB, seen: DB, agentId: Id, versionId: Id, runId: Id, thresholds: seq<Threshold>, summary: Summary, now: int)
    requires Inv(db) && (runId in seen.runs && runId in db.runs ==> seen.runs[runId].versionId == db.runs[runId].versionId)
    requires CompleteRunTx(db, seen, agentId, versionId, runId, thresholds, summary, now).Ok?
    ensures Inv(CompleteRunTx(db, seen, agentId, versionId, runId, thresholds, summary, now).value)
  {
    var after := CompleteRunTx(db, seen, agentId, versionId, runId, thresholds, summary, now).value;
    assert RunOk(db, db.runs[runId]);
    var run := after.runs[runId];
    assert after == With(db, runId, run, StatusFor(run.status));
    PairKeeps(db, runId, run, StatusFor(run.status));
  }

  // ---------------------------------------------------- promotion and rollback

  /**
   What the agent's lock guarantees about a version read under it: an eligible one is still eligible,
   and one that could be rolled back to still can.
   */
  ghost predicate ReadUnderLock(seen: DB, db: DB, agentId: Id, versionId: Id) {
    versionId in seen.versions && seen.versions[versionId].agentId == agentId && CanRollbackTo(seen.versions[versionId].status) ==>
      && versionId in db.versions && db.versions[versionId].agentId == agentId
      && (seen.versions[versionId].status == Eligible ==> db.versions[versionId].status == Eligible)
      && CanRollbackTo(db.versions[versionId].status)
  }

  function Marked(db: DB, v: Id, status: VersionStatus): DB
    requires v in db.versions
  {
    db.(versions := db.versions[v := db.versions[v].(status := status)])
  }

  /** Moving a version among the statuses that can be rolled back to keeps everything but `OneActive`. */
  lemma StatusKeeps(db: DB, v: Id, status: VersionStatus)
    requires RunsOk(db) && VersionsOk(db) && AgentsOk(db) && v in db.versions
    requires CanRollbackTo(db.versions[v].status) && CanRollbackTo(status) && (db.versions[v].registered ==> status != Eligible)
    ensures RunsOk(Marked(db, v, status)) && VersionsOk(Marked(db, v, status)) && AgentsOk(Marked(db, v, status))
  {
    StatusKeepsRuns(db, v, status);
    StatusKeepsVersions(db, v, status);
    var after := Marked(db, v, status);
    forall a | a in after.agents ensures AgentOk(after, a) {
      assert AgentOk(db, a);
    }
  }

  lemma StatusKeepsRuns(db: DB, v: Id, status: VersionStatus)
    requires RunsOk(db) && v in db.versions && CanRollbackTo(db.versions[v].status) && CanRollbackTo(status)
    ensures RunsOk(Marked(db, v, status))
  {
    var after := Marked(db, v, status);
    forall r | r in after.runs ensures RunOk(after, after.runs[r]) {
      assert RunOk(db, db.runs[r]);
    }
  }

  lemma StatusKeepsVersions(db: DB, v: Id, status: VersionStatus)
    requires VersionsOk(db) && v in db.versions
    requires CanRollbackTo(db.versions[v].status) && CanRollbackTo(status) && (db.versions[v].registered ==> status != Eligible)
    ensures VersionsOk(Marked(db, v, status))
  {
    var after := Marked(db, v, status);
    forall w | w in after.versions ensures VersionOk(after, w) {
      assert VersionOk(db, w);
      assert Evaluated(db, w) ==> Evaluated(after, w);
    }
  }

  lemma RetireKeeps(db: DB, v: Id)
    requires Inv(db) && v in db.versions && db.versions[v].status == Active
    ensures Inv(Marked(db, v, Retired)) && IsActiveOf(Marked(db, v, Retired), db.versions[v].agentId, None)
  {
    StatusKeeps(db, v, Retired);
    RetireLeavesNone(db, v);
  }

  lemma RetireLeavesNone(db: DB, v: Id)
    requires OneActive(db) && v in db.versions && db.versions[v].status == Active
    ensures OneActive(Marked(db, v, Retired)) && IsActiveOf(Marked(db, v, Retired), db.versions[v].agentId, None)
  {
    var after := Marked(db, v, Retired);
    forall w, u, a | IsActive(after, w, a) && IsActive(after, u, a) ensures w == u {
      assert IsActive(db, w, a) && IsActive(db, u, a);
    }
    forall w | w in after.versions && after.versions[w].agentId == db.versions[v].agentId ensures after.versions[w].status != Active {
      assert IsActive(db, v, db.versions[v].agentId);
      assert IsActive(db, w, db.versions[v].agentId) <==> db.versions[w].status == Active;
    }
  }

  lemma ActivateKeeps(db: DB, v: Id)
    requires Inv(db) && v in db.versions && db.versions[v].status == Eligible && IsActiveOf(db, db.versions[v].agentId, None)
    ensures Inv(Marked(db, v, Active))
  {
    StatusKeeps(db, v, Active);
    var after := Marked(db, v, Active);
    forall w, u, a | IsActive(after, w, a) && IsActive(after, u, a) ensures w == u {
      assert w != v ==> IsActive(db, w, a) && a != db.versions[v].agentId;
      assert u != v ==> IsActive(db, u, a) && a != db.versions[v].agentId;
    }
  }

  lemma CurrentKeeps(db: DB, agentId: Id, v: Id)
    requires Inv(db) && agentId in db.agents && v in db.versions && db.versions[v].agentId == agentId && CanRollbackTo(db.versions[v].status)
    ensures Inv(db.(agents := db.agents[agentId := Some(v)]))
  {
    var after := db.(agents := db.agents[agentId := Some(v)]);
    forall r | r in after.runs ensures RunOk(after, after.runs[r]) {
      assert RunOk(db, db.runs[r]);
    }
    forall w | w in after.versions ensures VersionOk(after, w) {
      assert VersionOk(db, w);
      assert Evaluated(db, w) ==> Evaluated(after, w);
    }
    forall a | a in after.agents ensures AgentOk(after, a) {
      if a != agentId {
        assert AgentOk(db, a);
      }
    }
    forall w, u, a | IsActive(after, w, a) && IsActive(after, u, a) ensures w == u {
      assert IsActive(db, w, a) && IsActive(db, u, a);
    }
  }

  /** The closed form of a successful promotion. */
  function Promoted(db: DB, active: Option<Id>, agentId: Id, versionId: Id): DB
    requires versionId in db.versions && (active.Some? ==> active.value in db.versions)
  {
    var retired := if active.Some? then Marked(db, active.value, Retired) else db;
    var promoted := Marked(retired, versionId, Active);
    promoted.(agents := db.agents[agentId := Some(versionId)])
  }

  lemma PromoteEffect(db: DB, seen: DB, expected: Option<Id>, active: Option<Id>, agentId: Id, versionId: Id)
    requires IsActiveOf(db, agentId, active) && ReadUnderLock(seen, db, agentId, versionId)
    requires PromoteTx(db, seen, expected, active, agentId, versionId).Ok?
    ensures versionId in db.versions && db.versions[versionId].agentId == agentId && db.versions[versionId].status == Eligible
    ensures agentId in db.agents && db.agents[agentId] == expected && HasRun(db, versionId, Passed)
    ensures active.Some? ==> active.value in db.versions
    ensures PromoteTx(db, seen, expected, active, agentId, versionId).value == Promoted(db, active, agentId, versionId)
  {
  }

  /** Promotion retires the previous active version, makes the target the only active one, and current. */
  lemma PromoteKeeps(db: DB, seen: DB, expected: Option<Id>, active: Option<Id>, agentId: Id, versionId: Id)
    requires Inv(db) && IsActiveOf(db, agentId, active) && ReadUnderLock(seen, db, agentId, versionId)
    requires PromoteTx(db, seen, expected, active, agentId, versionId).Ok?
    ensures var after := PromoteTx(db, seen, expected, active, agentId, versionId).value;
            && Inv(after) && IsActive(after, versionId, agentId)
            && agentId in after.agents && after.agents[agentId] == Some(versionId)
            && (active.Some? ==> active.value in after.versions && after.versions[active.value].status == Retired)
  {
    PromoteEffect(db, seen, expected, active, agentId, versionId);
    var retired := db;
    if active.Some? {
      RetireKeeps(db, active.value);
      retired := Marked(db, active.value, Retired);
    }
    ActivateKeeps(retired, versionId);
    CurrentKeeps(Marked(retired, versionId, Active), agentId, versionId);
  }

  lemma RollbackKeeps(db: DB, seen: DB, agentId: Id, versionId: Id)
    requires Inv(db) && ReadUnderLock(seen, db, agentId, versionId) && RollbackTx(db, seen, agentId, versionId).Ok?
    ensures Inv(RollbackTx(db, seen, agentId, versionId).value)
  {
    CurrentKeeps(db, agentId, versionId);
  }
}

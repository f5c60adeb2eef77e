/**
 The ledger of acceptance criteria and the reward gate over it: what a validation job records, which
 result of a criterion is its latest, and when every required criterion has passed.
 */
module CriterionGate {
  import opened Common

  datatype VerifierKind = Command | CI | Manual

  datatype SourceKind = ValidationJob | Review | ManualOverride

  datatype CriterionResult = CriterionResult(
    id: int, taskId: string, executionId: string, criterionId: string, critical: bool, kind: VerifierKind, passed: bool,
    sourceKind: SourceKind, sourceId: string, verifiedBy: string, evidenceHash: string, observedAt: int)

  /** The append-only table and its identity counter, which an insert consumes even when it conflicts. */
  datatype Table = Table(rows: seq<CriterionResult>, nextId: int)

  /** The characters that trimming removes. */
  predicate IsSpace(c: char) {
    var n := c as int;
    || 0x9 <= n <= 0xD || n in {0x20, 0x85, 0xA0, 0x1680} || 0x2000 <= n <= 0x200A
    || n in {0x2028, 0x2029, 0x202F, 0x205F, 0x3000}
  }

  predicate IsTrimmed(s: string) {
    s != "" && !IsSpace(s[0]) && !IsSpace(s[|s| - 1])
  }

  predicate IsHash(s: string) {
    |s| == 64 && forall i :: 0 <= i < 64 ==> '0' <= s[i] <= '9' || 'a' <= s[i] <= 'f'
  }

  predicate ValidResult(r: CriterionResult) {
    && IsTrimmed(r.taskId) && IsTrimmed(r.executionId) && IsTrimmed(r.criterionId) && IsTrimmed(r.sourceId) && IsTrimmed(r.verifiedBy)
    && (r.evidenceHash == "" || IsHash(r.evidenceHash))
  }

  predicate SameSource(a: CriterionResult, b: CriterionResult) {
    a.executionId == b.executionId && a.criterionId == b.criterionId && a.sourceKind == b.sourceKind && a.sourceId == b.sourceId
  }

  predicate SameFinding(a: CriterionResult, b: CriterionResult) {
    a.passed == b.passed && a.critical == b.critical && a.kind == b.kind && a.observedAt == b.observedAt
  }

  predicate IsRecorded(rows: seq<CriterionResult>, r: CriterionResult) {
    exists i :: 0 <= i < |rows| && SameSource(rows[i], r)
  }

  predicate Contradicts(rows: seq<CriterionResult>, r: CriterionResult) {
    exists i :: 0 <= i < |rows| && SameSource(rows[i], r) && !SameFinding(rows[i], r)
  }

  datatype Recorded = Recorded(table: Table, result: Result<bool>)

  /** `known` holds the executions, each with its task, that the foreign key refers to; the result tells whether a row was inserted. */
  function Record(t: Table, known: set<(string, string)>, r: CriterionResult): Recorded {
    if !ValidResult(r) then Recorded(t, Err(InvalidArgument))
    else
      var drawn := t.(nextId := t.nextId + 1);
      if IsRecorded(t.rows, r) then
        if Contradicts(t.rows, r) then Recorded(drawn, Err(StateConflict)) else Recorded(drawn, Ok(false))
      else if (r.executionId, r.taskId) !in known then Recorded(drawn, Err(Internal))
      else Recorded(drawn.(rows := t.rows + [r.(id := t.nextId)]), Ok(true))
  }

  /** Generated ids increase, and no source has two results for one criterion. */
  ghost predicate ValidTable(t: Table) {
    && (forall i :: 0 <= i < |t.rows| ==> t.rows[i].id < t.nextId)
    && (forall i, j :: 0 <= i < j < |t.rows| ==> t.rows[i].id < t.rows[j].id && !SameSource(t.rows[i], t.rows[j]))
  }

  lemma RecordKeepsValid(t: Table, known: set<(string, string)>, r: CriterionResult)
    requires ValidTable(t)
    ensures ValidTable(Record(t, known, r).table) && t.rows <= Record(t, known, r).table.rows
  {
  }

  // ------------------------------------------------------------------- batches

  datatype Batch = Batch(table: Table, recorded: nat, error: Option<ErrorCode>)

  /** The commands in order up to the first error; what was recorded before it stays. */
  function RecordBatch(t: Table, known: set<(string, string)>, commands: seq<CriterionResult>): Batch
    decreases |commands|
  {
    if commands == [] then Batch(t, 0, None)
    else
      var one := Record(t, known, commands[0]);
      if one.result.Err? then Batch(one.table, 0, Some(one.result.code))
      else
        var rest := RecordBatch(one.table, known, commands[1..]);
        rest.(recorded := rest.recorded + if one.result.value then 1 else 0)
  }

  /** What a criterion of the task asks for; `automated` when it is bound to a known validation step. */
  datatype CriterionSpec = CriterionSpec(id: string, critical: bool, verifierKind: string, verifierRef: string, automated: bool)

  /** The criteria of an execution's task, with no task id when it has no public task. */
  datatype TaskCriteria = TaskCriteria(taskId: string, criteria: seq<CriterionSpec>)

  datatype ValidationOutcome = ValidationOutcome(
    executionId: string, jobId: string, steps: map<string, bool>, observedAt: Option<int>)

  function VerifierKindOf(kind: string): VerifierKind {
    if kind == "ci" then CI else Command
  }

  predicate Ran(c: CriterionSpec, outcome: ValidationOutcome) {
    c.automated && c.verifierRef != "" && c.verifierRef in outcome.steps
  }

  function CommandFor(taskId: string, c: CriterionSpec, outcome: ValidationOutcome): CriterionResult
    requires Ran(c, outcome) && outcome.observedAt.Some?
  {
    CriterionResult(0, taskId, outcome.executionId, c.id, c.critical, VerifierKindOf(c.verifierKind), outcome.steps[c.verifierRef],
                    ValidationJob, outcome.jobId, "validation_worker", "", outcome.observedAt.value)
  }

  function CommandsFor(taskId: string, criteria: seq<CriterionSpec>, outcome: ValidationOutcome): seq<CriterionResult>
    requires outcome.observedAt.Some?
    decreases |criteria|
  {
    if criteria == [] then []
    else
      CommandsFor(taskId, criteria[..|criteria| - 1], outcome) +
      if Ran(criteria[|criteria| - 1], outcome) then [CommandFor(taskId, criteria[|criteria| - 1], outcome)] else []
  }

  /** `spec` is what the source of criteria answered for the execution. */
  function RecordOutcome(t: Table, known: set<(string, string)>, spec: Result<TaskCriteria>, outcome: ValidationOutcome): Batch {
    if outcome.executionId == "" || outcome.jobId == "" || outcome.observedAt.None? then Batch(t, 0, Some(InvalidArgument))
    else if spec.Err? then Batch(t, 0, Some(spec.code))
    else if spec.value.taskId == "" then Batch(t, 0, None)
    else RecordBatch(t, known, CommandsFor(spec.value.taskId, spec.value.criteria, outcome))
  }

  class CriterionRecorder {
    var table: Table
    const known: set<(string, string)>

    constructor (known: set<(string, string)>)
      ensures table == Table([], 1) && this.known == known
    {
      table, this.known := Table([], 1), known;
    }

    /** Insert unless the source is already recorded; then compare with the stored finding. */
    method RecordOne(r: CriterionResult) returns (inserted: Result<bool>)
      requires ValidTable(table)
      modifies this`table
      ensures ValidTable(table) && Recorded(table, inserted) == Record(old(table), known, r)
    {
      RecordKeepsValid(table, known, r);
      if !ValidResult(r) {
        return Err(InvalidArgument);
      }
      var id := table.nextId;
      ghost var was := table;
      table := table.(nextId := id + 1);
      var i := 0;
      while i < |table.rows|
        invariant i <= |table.rows| && table == was.(nextId := id + 1)
        invariant forall j :: 0 <= j < i ==> !SameSource(table.rows[j], r)
      {
        if SameSource(table.rows[i], r) {
          var existing := table.rows[i];
          assert forall j :: 0 <= j < |was.rows| && SameSource(was.rows[j], r) ==> j == i by {
            forall j | 0 <= j < |was.rows| && SameSource(was.rows[j], r) ensures j == i {
              assert i < j ==> !SameSource(was.rows[i], was.rows[j]);
            }
          }
          if existing.passed != r.passed || existing.critical != r.critical || existing.kind != r.kind ||
             existing.observedAt != r.observedAt {
            return Err(StateConflict);
          }
          return Ok(false);
        }
        i := i + 1;
      }
      if (r.executionId, r.taskId) !in known {
        return Err(Internal);
      }
      table := table.(rows := table.rows + [r.(id := id)]);
      return Ok(true);
    }

    method RecordCommands(commands: seq<CriterionResult>) returns (recorded: nat, error: Option<ErrorCode>)
      requires ValidTable(table)
      modifies this`table
      ensures ValidTable(table) && Batch(table, recorded, error) == RecordBatch(old(table), known, commands)
    {
      recorded := 0;
      ghost var was := table;
      var i := 0;
      while i < |commands|
        invariant i <= |commands| && ValidTable(table)
        invariant RecordBatch(was, known, commands)
                  == (var rest := RecordBatch(table, known, commands[i..]); rest.(recorded := rest.recorded + recorded))
      {
        var one := RecordOne(commands[i]);
        assert commands[i..][1..] == commands[i + 1..];
        if one.Err? {
          return recorded, Some(one.code);
        }
        if one.value {
          recorded := recorded + 1;
        }
        i := i + 1;
      }
      return recorded, None;
    }

    /** Only criteria bound to a step that ran are judged. */
    method RecordValidationOutcome(spec: Result<TaskCriteria>, outcome: ValidationOutcome)
      returns (recorded: nat, error: Option<ErrorCode>)
      requires ValidTable(table)
      modifies this`table
      ensures ValidTable(table) && Batch(table, recorded, error) == RecordOutcome(old(table), known, spec, outcome)
    {
      if outcome.executionId == "" || outcome.jobId == "" || outcome.observedAt.None? {
        return 0, Some(InvalidArgument);
      }
      if spec.Err? {
        return 0, Some(spec.code);
      }
      var taskId, criteria := spec.value.taskId, spec.value.criteria;
      if taskId == "" {
        return 0, None;
      }
      var commands := [];
      var i := 0;
      while i < |criteria|
        invariant i <= |criteria| && table == old(table)
        invariant commands == CommandsFor(taskId, criteria[..i], outcome)
      {
        var c := criteria[i];
        assert criteria[..i + 1][..i] == criteria[..i];
        if c.automated && c.verifierRef != "" && c.verifierRef in outcome.steps {
          commands := commands + [CommandFor(taskId, c, outcome)];
        }
        i := i + 1;
      }
      assert criteria[..i] == criteria;
      recorded, error := RecordCommands(commands);
    }
  }

  // ----------------------------------------------------------------- redelivery

  /** Recording the command inserts nothing: its source is recorded, or it can never be inserted. */
  predicate Absorbed(t: Table, known: set<(string, string)>, r: CriterionResult) {
    !ValidResult(r) || IsRecorded(t.rows, r) || (r.executionId, r.taskId) !in known
  }

  lemma AbsorbedIff(t: Table, known: set<(string, string)>, r: CriterionResult)
    ensures Absorbed(t, known, r) <==> Record(t, known, r).table.rows == t.rows
    ensures Absorbed(t, known, r) <==> Record(t, known, r).result != Ok(true)
  {
  }

  /** How far a batch gets, up to and with its first error. */
  function Reached(t: Table, known: set<(string, string)>, commands: seq<CriterionResult>): (n: nat)
    ensures n <= |commands|
    decreases |commands|
  {
    if commands == [] then 0
    else
      var one := Record(t, known, commands[0]);
      if one.result.Err? then 1 else 1 + Reached(one.table, known, commands[1..])
  }

  ghost predicate ReachedAbsorbed(t: Table, known: set<(string, string)>, commands: seq<CriterionResult>) {
    forall i :: 0 <= i < Reached(t, known, commands) ==> Absorbed(t, known, commands[i])
  }

  /** A batch adds nothing if and only if every command it reaches is absorbed. */
  lemma {:induction false} BatchAddsNothingIff(t: Table, known: set<(string, string)>, commands: seq<CriterionResult>)
    ensures RecordBatch(t, known, commands).table.rows == t.rows <==> ReachedAbsorbed(t, known, commands)
    ensures RecordBatch(t, known, commands).recorded == 0 <==> ReachedAbsorbed(t, known, commands)
    decreases |commands|
  {
    if commands != [] {
      var one := Record(t, known, commands[0]);
      AbsorbedIff(t, known, commands[0]);
      if one.result.Ok? {
        if Absorbed(t, known, commands[0]) {
          BatchAddsNothingIff(one.table, known, commands[1..]);
          RestAbsorbed(t, known, commands);
        } else {
          BatchExtends(one.table, known, commands[1..]);
        }
      }
    }
  }

  lemma RestAbsorbed(t: Table, known: set<(string, string)>, commands: seq<CriterionResult>)
    requires commands != [] && Record(t, known, commands[0]).result.Ok? && Absorbed(t, known, commands[0])
    ensures ReachedAbsorbed(t, known, commands) <==> ReachedAbsorbed(Record(t, known, commands[0]).table, known, commands[1..])
  {
    var one := Record(t, known, commands[0]).table;
    AbsorbedIff(t, known, commands[0]);
    if ReachedAbsorbed(t, known, commands) {
      forall i | 0 <= i < Reached(one, known, commands[1..]) ensures Absorbed(one, known, commands[1..][i]) {
        assert Absorbed(t, known, commands[i + 1]);
      }
    }
    if ReachedAbsorbed(one, known, commands[1..]) {
      forall i | 0 <= i < Reached(t, known, commands) ensures Absorbed(t, known, commands[i]) {
        assert i > 0 ==> Absorbed(one, known, commands[1..][i - 1]);
      }
    }
  }

  /** After a batch without an error, every command of it is recorded. */
  lemma {:induction false} BatchRecords(t: Table, known: set<(string, string)>, commands: seq<CriterionResult>, i: nat)
    requires i < |commands| && RecordBatch(t, known, commands).error == None
    ensures IsRecorded(RecordBatch(t, known, commands).table.rows, commands[i])
    decreases |commands|
  {
    var one := Record(t, known, commands[0]).table;
    if i > 0 {
      BatchRecords(one, known, commands[1..], i - 1);
    } else {
      BatchExtends(one, known, commands[1..]);
      assert IsRecorded(t.rows, commands[0]) || SameSource(one.rows[|t.rows|], commands[0]);
      StaysRecorded(one.rows, RecordBatch(t, known, commands).table.rows, commands[0]);
    }
  }

  lemma StaysRecorded(rows: seq<CriterionResult>, later: seq<CriterionResult>, r: CriterionResult)
    requires rows <= later && IsRecorded(rows, r)
    ensures IsRecorded(later, r)
  {
    var i :| 0 <= i < |rows| && SameSource(rows[i], r);
    assert later[i] == rows[i];
  }

  // --------------------------------------------------------- redelivered jobs

  /** The commands of a job for the criteria answered to it. */
  function JobCommands(spec: Result<TaskCriteria>, outcome: ValidationOutcome): seq<CriterionResult> {
    if outcome.executionId == "" || outcome.jobId == "" || outcome.observedAt.None? || spec.Err? || spec.value.taskId == "" then []
    else CommandsFor(spec.value.taskId, spec.value.criteria, outcome)
  }

  /** Delivering a job adds nothing if and only if all it reaches of its commands is absorbed by the ledger. */
  lemma JobAddsNothingIff(t: Table, known: set<(string, string)>, spec: Result<TaskCriteria>, outcome: ValidationOutcome)
    ensures RecordOutcome(t, known, spec, outcome).table.rows == t.rows <==> ReachedAbsorbed(t, known, JobCommands(spec, outcome))
    ensures RecordOutcome(t, known, spec, outcome).recorded == 0 <==> ReachedAbsorbed(t, known, JobCommands(spec, outcome))
  {
    BatchAddsNothingIff(t, known, JobCommands(spec, outcome));
  }

  /** Some answered criterion of this id is bound to a step that ran. */
  ghost predicate Judges(spec: Result<TaskCriteria>, outcome: ValidationOutcome, id: string) {
    spec.Ok? && spec.value.taskId != "" && exists c :: c in spec.value.criteria && Ran(c, outcome) && c.id == id
  }

  lemma {:induction false} RanHasCommand(taskId: string, criteria: seq<CriterionSpec>, outcome: ValidationOutcome, c: CriterionSpec)
    returns (i: nat)
    requires outcome.observedAt.Some? && c in criteria && Ran(c, outcome)
    ensures i < |CommandsFor(taskId, criteria, outcome)| && CommandsFor(taskId, criteria, outcome)[i] == CommandFor(taskId, c, outcome)
    decreases |criteria|
  {
    var n := |criteria| - 1;
    if c == criteria[n] {
      i := |CommandsFor(taskId, criteria[..n], outcome)|;
    } else {
      var j :| 0 <= j < |criteria| && criteria[j] == c;
      assert criteria[..n][j] == c;
      i := RanHasCommand(taskId, criteria[..n], outcome, c);
    }
  }

  /**
   Delivering a recorded job again, at any later time, adds nothing, provided that the criteria then
   answered judge no step that those answered first did not; answered alike, they never do.
   */
  lemma RedeliveredJobAddsNothing(
    t: Table, later: Table, known: set<(string, string)>, spec: Result<TaskCriteria>, again: Result<TaskCriteria>,
    outcome: ValidationOutcome)
    requires RecordOutcome(t, known, spec, outcome).error == None
    requires RecordOutcome(t, known, spec, outcome).table.rows <= later.rows
    requires forall id :: Judges(again, outcome, id) ==> Judges(spec, outcome, id)
    ensures RecordOutcome(later, known, again, outcome).table.rows == later.rows
    ensures RecordOutcome(later, known, again, outcome).recorded == 0
  {
    var commands := JobCommands(again, outcome);
    forall i | 0 <= i < |commands| ensures IsRecorded(later.rows, commands[i]) {
      JudgedIsRecorded(t, known, spec, again, outcome, i);
      StaysRecorded(RecordOutcome(t, known, spec, outcome).table.rows, later.rows, commands[i]);
    }
    JobAddsNothingIff(later, known, again, outcome);
  }

  lemma JudgedIsRecorded(
    t: Table, known: set<(string, string)>, spec: Result<TaskCriteria>, again: Result<TaskCriteria>, outcome: ValidationOutcome, i: nat)
    requires RecordOutcome(t, known, spec, outcome).error == None && i < |JobCommands(again, outcome)|
    requires forall id :: Judges(again, outcome, id) ==> Judges(spec, outcome, id)
    ensures IsRecorded(RecordOutcome(t, known, spec, outcome).table.rows, JobCommands(again, outcome)[i])
  {
    var command := JobCommands(again, outcome)[i];
    CommandsRan(again.value.taskId, again.value.criteria, outcome, i);
    assert Judges(again, outcome, command.criterionId);
    var c :| c in spec.value.criteria && Ran(c, outcome) && c.id == command.criterionId;
    var j := RanHasCommand(spec.value.taskId, spec.value.criteria, outcome, c);
    BatchRecords(t, known, JobCommands(spec, outcome), j);
    assert SameSource(JobCommands(spec, outcome)[j], command);
  }

  /** Otherwise it can: an execution without a public task at first, whose task is projected before the redelivery. */
  lemma LateCriteriaAreRecorded(t: Table, known: set<(string, string)>, spec: TaskCriteria, c: CriterionSpec, outcome: ValidationOutcome)
    requires outcome.executionId != "" && outcome.jobId != "" && outcome.observedAt.Some?
    requires spec.taskId != "" && spec.criteria == [c] && Ran(c, outcome) && !Absorbed(t, known, CommandFor(spec.taskId, c, outcome))
    ensures RecordOutcome(t, known, Ok(TaskCriteria("", [])), outcome) == Batch(t, 0, None)
    ensures RecordOutcome(t, known, Ok(spec), outcome).recorded == 1
    ensures RecordOutcome(t, known, Ok(spec), outcome).table.rows == t.rows + [CommandFor(spec.taskId, c, outcome).(id := t.nextId)]
  {
    var command := CommandFor(spec.taskId, c, outcome);
    assert CommandsFor(spec.taskId, spec.criteria, outcome) == [command] by {
      assert CommandsFor(spec.taskId, spec.criteria[..0], outcome) == [];
    }
    assert [command][1..] == [];
    assert RecordBatch(t, known, [command]).table == Record(t, known, command).table;
  }

  // ------------------------------------------------------------ repeated batches

  lemma RecordedAgrees(t: Table, known: set<(string, string)>, r: CriterionResult, later: Table)
    requires ValidTable(t) && Record(t, known, r).result.Ok? && Record(t, known, r).table.rows <= later.rows && ValidTable(later)
    ensures Record(later, known, r).result == Ok(false) && Record(later, known, r).table.rows == later.rows
  {
    var after := Record(t, known, r).table;
    var i :| 0 <= i < |after.rows| && SameSource(after.rows[i], r) && SameFinding(after.rows[i], r);
    assert later.rows[i] == after.rows[i];
    forall j | 0 <= j < |later.rows| && SameSource(later.rows[j], r) ensures j == i {
      assert SameSource(later.rows[j], later.rows[i]) && SameSource(later.rows[i], later.rows[j]);
    }
  }

  /** Repeating a batch at once, stopped by an error or not, records nothing and stops in the same way. */
  lemma {:induction false} RepeatedBatchAddsNothing(t: Table, known: set<(string, string)>, commands: seq<CriterionResult>, later: Table)
    requires ValidTable(t) && ValidTable(later) && later.rows == RecordBatch(t, known, commands).table.rows
    ensures RecordBatch(later, known, commands).table.rows == later.rows && RecordBatch(later, known, commands).recorded == 0
    ensures RecordBatch(later, known, commands).error == RecordBatch(t, known, commands).error
    decreases |commands|
  {
    if commands != [] && Record(t, known, commands[0]).result.Ok? {
      var one := Record(t, known, commands[0]).table;
      BatchExtends(one, known, commands[1..]);
      RecordedAgrees(t, known, commands[0], later);
      RecordKeepsValid(t, known, commands[0]);
      RecordKeepsValid(later, known, commands[0]);
      RepeatedBatchAddsNothing(one, known, commands[1..], Record(later, known, commands[0]).table);
    }
  }

  /** A criterion whose step ran, and the row says what the step said. */
  ghost predicate FromRunStep(row: CriterionResult, criteria: seq<CriterionSpec>, outcome: ValidationOutcome) {
    exists c :: c in criteria && Ran(c, outcome) && row.criterionId == c.id && row.critical == c.critical
             && row.passed == outcome.steps[c.verifierRef]
  }

  lemma {:induction false} CommandsRan(taskId: string, criteria: seq<CriterionSpec>, outcome: ValidationOutcome, i: nat)
    requires outcome.observedAt.Some? && i < |CommandsFor(taskId, criteria, outcome)|
    ensures FromRunStep(CommandsFor(taskId, criteria, outcome)[i], criteria, outcome)
    ensures var c := CommandsFor(taskId, criteria, outcome)[i];
            c.taskId == taskId && c.executionId == outcome.executionId && c.sourceKind == ValidationJob && c.sourceId == outcome.jobId
    decreases |criteria|
  {
    var n := |criteria| - 1;
    if i < |CommandsFor(taskId, criteria[..n], outcome)| {
      CommandsRan(taskId, criteria[..n], outcome, i);
    } else {
      assert criteria[n] in criteria;
    }
  }

  lemma {:induction false} NewRowsAreCommands(t: Table, known: set<(string, string)>, commands: seq<CriterionResult>, k: nat)
    requires |t.rows| <= k < |RecordBatch(t, known, commands).table.rows|
    ensures t.rows <= RecordBatch(t, known, commands).table.rows
    ensures exists i :: 0 <= i < |commands|
              && RecordBatch(t, known, commands).table.rows[k] == commands[i].(id := RecordBatch(t, known, commands).table.rows[k].id)
    decreases |commands|
  {
    if commands != [] {
      var one := Record(t, known, commands[0]);
      BatchExtends(t, known, commands);
      if one.result.Ok? {
        BatchExtends(one.table, known, commands[1..]);
        if k >= |one.table.rows| {
          NewRowsAreCommands(one.table, known, commands[1..], k);
          var i :| 0 <= i < |commands[1..]| && RecordBatch(t, known, commands).table.rows[k]
                     == commands[1..][i].(id := RecordBatch(t, known, commands).table.rows[k].id);
          assert commands[i + 1] == commands[1..][i];
        } else {
          assert one.table.rows[k] == commands[0].(id := one.table.rows[k].id);
        }
      }
    }
  }

  lemma {:induction false} BatchExtends(t: Table, known: set<(string, string)>, commands: seq<CriterionResult>)
    ensures t.rows <= RecordBatch(t, known, commands).table.rows
    decreases |commands|
  {
    if commands != [] && Record(t, known, commands[0]).result.Ok? {
      BatchExtends(Record(t, known, commands[0]).table, known, commands[1..]);
    }
  }

  /** A validation outcome only ever appends, and every row it appends reports a step that ran. */
  lemma OnlyRunStepsContribute(t: Table, known: set<(string, string)>, spec: TaskCriteria, outcome: ValidationOutcome, k: nat)
    requires var after := RecordOutcome(t, known, Ok(spec), outcome).table; |t.rows| <= k < |after.rows|
    ensures var after := RecordOutcome(t, known, Ok(spec), outcome).table;
            && t.rows <= after.rows && after.rows[k].taskId == spec.taskId && after.rows[k].executionId == outcome.executionId
            && FromRunStep(after.rows[k], spec.criteria, outcome)
  {
    var commands := CommandsFor(spec.taskId, spec.criteria, outcome);
    NewRowsAreCommands(t, known, commands, k);
    var after := RecordBatch(t, known, commands).table;
    var i :| 0 <= i < |commands| && after.rows[k] == commands[i].(id := after.rows[k].id);
    CommandsRan(spec.taskId, spec.criteria, outcome, i);
    var c :| c in spec.criteria && Ran(c, outcome) && commands[i].criterionId == c.id && commands[i].critical == c.critical
             && commands[i].passed == outcome.steps[c.verifierRef];
  }
}

/** The latest result of each criterion, and the coverage of a task's criteria that gates its reward. */
module CriterionCoverage {
  import opened Common
  import opened CriterionGate

  datatype SpecCriterion = SpecCriterion(id: string, critical: bool)

  datatype Coverage = Coverage(
    required: nat, requiredPassed: nat, optional: nat, optionalPassed: nat, unverified: seq<string>,
    failedRequired: seq<string>, latestObserved: Option<int>, specIds: seq<string>)

  // -------------------------------------------------------------------- latest

  predicate About(r: CriterionResult, executionId: string, criterionId: string) {
    r.executionId == executionId && r.criterionId == criterionId
  }

  /** The view's order: by observation, then by generated id. */
  predicate Later(a: CriterionResult, b: CriterionResult) {
    a.observedAt > b.observedAt || (a.observedAt == b.observedAt && a.id >= b.id)
  }

  ghost predicate IsLatest(rows: seq<CriterionResult>, executionId: string, criterionId: string, r: CriterionResult) {
    && r in rows && About(r, executionId, criterionId)
    && forall o :: o in rows && About(o, executionId, criterionId) ==> Later(r, o)
  }

  /** What `ListLatest` returns: the latest result of every criterion that has one. */
  ghost predicate ListsLatest(latest: seq<CriterionResult>, rows: seq<CriterionResult>, executionId: string) {
    && (forall r :: r in latest ==> IsLatest(rows, executionId, r.criterionId, r))
    && (forall r :: r in rows && r.executionId == executionId ==> Listed(latest, r.criterionId))
  }

  predicate Listed(latest: seq<CriterionResult>, criterionId: string) {
    exists l :: l in latest && l.criterionId == criterionId
  }

  /** The latest fact the ledger holds about the criterion says that it passed. */
  ghost predicate LatestPassed(rows: seq<CriterionResult>, executionId: string, criterionId: string) {
    exists r :: IsLatest(rows, executionId, criterionId, r) && r.passed
  }

  lemma LatestIsUnique(t: Table, executionId: string, criterionId: string, a: CriterionResult, b: CriterionResult)
    requires ValidTable(t) && IsLatest(t.rows, executionId, criterionId, a) && IsLatest(t.rows, executionId, criterionId, b)
    ensures a == b
  {
    var i :| 0 <= i < |t.rows| && t.rows[i] == a;
    var j :| 0 <= j < |t.rows| && t.rows[j] == b;
    assert Later(a, b) && Later(b, a);
  }

  // ------------------------------------------------------------------- summary

  function ById(latest: seq<CriterionResult>): map<string, CriterionResult>
    decreases |latest|
  {
    if latest == [] then map[] else ById(latest[..|latest| - 1])[latest[|latest| - 1].criterionId := latest[|latest| - 1]]
  }

  function Observe(o: Option<int>, at: int): Option<int> {
    if o.None? || at > o.value then Some(at) else o
  }

  function AddCriterion(c: Coverage, s: SpecCriterion, byId: map<string, CriterionResult>): Coverage {
    var counted := c.(specIds := c.specIds + [s.id],
                      required := c.required + (if s.critical then 1 else 0),
                      optional := c.optional + (if s.critical then 0 else 1));
    if s.id !in byId then counted.(unverified := c.unverified + [s.id])
    else
      var seen := counted.(latestObserved := Observe(c.latestObserved, byId[s.id].observedAt));
      if byId[s.id].passed then
        if s.critical then seen.(requiredPassed := c.requiredPassed + 1) else seen.(optionalPassed := c.optionalPassed + 1)
      else if s.critical then seen.(failedRequired := c.failedRequired + [s.id])
      else seen
  }

  function Summary(spec: seq<SpecCriterion>, byId: map<string, CriterionResult>): Coverage
    decreases |spec|
  {
    if spec == [] then Coverage(0, 0, 0, 0, [], [], None, [])
    else AddCriterion(Summary(spec[..|spec| - 1], byId), spec[|spec| - 1], byId)
  }

  predicate AllRequiredPassed(c: Coverage) {
    c.required != 0 && |c.failedRequired| == 0 && c.requiredPassed == c.required
  }

  method SummarizeCriteria(spec: seq<SpecCriterion>, latest: seq<CriterionResult>) returns (c: Coverage)
    ensures c == Summary(spec, ById(latest))
  {
    var byId: map<string, CriterionResult> := map[];
    var i := 0;
    while i < |latest|
      invariant i <= |latest| && byId == ById(latest[..i])
    {
      assert latest[..i + 1][..i] == latest[..i];
      byId := byId[latest[i].criterionId := latest[i]];
      i := i + 1;
    }
    assert latest[..i] == latest;
    c := Coverage(0, 0, 0, 0, [], [], None, []);
    i := 0;
    while i < |spec|
      invariant i <= |spec| && c == Summary(spec[..i], byId)
    {
      var criterion := spec[i];
      ghost var before := c;
      assert spec[..i + 1][..i] == spec[..i];
      i := i + 1;
      c := c.(specIds := c.specIds + [criterion.id]);
      if criterion.critical {
        c := c.(required := c.required + 1);
      } else {
        c := c.(optional := c.optional + 1);
      }
      if criterion.id !in byId {
        c := c.(unverified := c.unverified + [criterion.id]);
        assert c == AddCriterion(before, criterion, byId);
        continue;
      }
      var result := byId[criterion.id];
      if c.latestObserved.None? || result.observedAt > c.latestObserved.value {
        c := c.(latestObserved := Some(result.observedAt));
      }
      if result.passed && criterion.critical {
        c := c.(requiredPassed := c.requiredPassed + 1);
      } else if result.passed {
        c := c.(optionalPassed := c.optionalPassed + 1);
      } else if criterion.critical {
        c := c.(failedRequired := c.failedRequired + [criterion.id]);
      }
      assert c == AddCriterion(before, criterion, byId);
    }
    assert spec[..i] == spec;
  }

  // ------------------------------------------------------------------- the gate

  predicate Verified(s: SpecCriterion, byId: map<string, CriterionResult>) {
    s.id in byId && byId[s.id].passed
  }

  function Picked(spec: seq<SpecCriterion>, critical: bool, p: SpecCriterion -> bool): set<nat> {
    set i | 0 <= i < |spec| && spec[i].critical == critical && p(spec[i])
  }

  lemma {:induction false} PickedAfter(spec: seq<SpecCriterion>, critical: bool, p: SpecCriterion -> bool)
    requires spec != []
    ensures |Picked(spec, critical, p)| == |Picked(spec[..|spec| - 1], critical, p)|
              + if spec[|spec| - 1].critical == critical && p(spec[|spec| - 1]) then 1 else 0
  {
    var n := |spec| - 1;
    var before := Picked(spec[..n], critical, p);
    if spec[n].critical == critical && p(spec[n]) {
      assert Picked(spec, critical, p) == before + {n};
    } else {
      assert Picked(spec, critical, p) == before;
    }
  }

  function Unverified(byId: map<string, CriterionResult>): SpecCriterion -> bool {
    (s: SpecCriterion) => s.id !in byId
  }

  function Failed(byId: map<string, CriterionResult>): SpecCriterion -> bool {
    (s: SpecCriterion) => s.id in byId && !byId[s.id].passed
  }

  function Passed(byId: map<string, CriterionResult>): SpecCriterion -> bool {
    (s: SpecCriterion) => Verified(s, byId)
  }

  function Any(): SpecCriterion -> bool {
    (s: SpecCriterion) => true
  }

  /** Every number and list of a coverage counts criteria of the specification. */
  lemma {:induction false} CoverageCounts(spec: seq<SpecCriterion>, byId: map<string, CriterionResult>)
    ensures var c := Summary(spec, byId);
            && c.required == |Picked(spec, true, Any())| && c.optional == |Picked(spec, false, Any())|
            && c.requiredPassed == |Picked(spec, true, Passed(byId))| && c.optionalPassed == |Picked(spec, false, Passed(byId))|
            && |c.failedRequired| == |Picked(spec, true, Failed(byId))|
            && |c.unverified| == |Picked(spec, true, Unverified(byId))| + |Picked(spec, false, Unverified(byId))|
            && |c.specIds| == |spec|
    decreases |spec|
  {
    if spec == [] {
      assert forall critical, p :: Picked(spec, critical, p) == {};
    } else {
      CoverageCounts(spec[..|spec| - 1], byId);
      PickedAfter(spec, true, Any());
      PickedAfter(spec, false, Any());
      PickedAfter(spec, true, Passed(byId));
      PickedAfter(spec, false, Passed(byId));
      PickedAfter(spec, true, Failed(byId));
      PickedAfter(spec, true, Unverified(byId));
      PickedAfter(spec, false, Unverified(byId));
    }
  }

  /** The required criteria are those passed, those failed and those unverified. */
  lemma {:induction false} RequiredAddsUp(spec: seq<SpecCriterion>, byId: map<string, CriterionResult>)
    ensures var c := Summary(spec, byId);
            c.required == c.requiredPassed + |c.failedRequired| + |Picked(spec, true, Unverified(byId))|
    decreases |spec|
  {
    CoverageCounts(spec, byId);
    if spec == [] {
      assert Picked(spec, true, Unverified(byId)) == {};
    } else {
      RequiredAddsUp(spec[..|spec| - 1], byId);
      PickedAfter(spec, true, Unverified(byId));
    }
  }

  /** The gate opens exactly when there is a critical criterion and every one of them has passed. */
  lemma GateIff(spec: seq<SpecCriterion>, byId: map<string, CriterionResult>)
    ensures AllRequiredPassed(Summary(spec, byId)) <==>
              && (exists i :: 0 <= i < |spec| && spec[i].critical)
              && (forall i :: 0 <= i < |spec| && spec[i].critical ==> Verified(spec[i], byId))
  {
    CoverageCounts(spec, byId);
    RequiredAddsUp(spec, byId);
    var all, passed := Picked(spec, true, Any()), Picked(spec, true, Passed(byId));
    assert (exists i :: 0 <= i < |spec| && spec[i].critical) <==> all != {} by {
      if i :| 0 <= i < |spec| && spec[i].critical {
        assert i in all;
      }
    }
    if |passed| == |all| {
      SubsetOfSameSize(passed, all);
      forall i | 0 <= i < |spec| && spec[i].critical ensures Verified(spec[i], byId) {
        assert i in all && i in passed;
      }
    }
    if forall i :: 0 <= i < |spec| && spec[i].critical ==> Verified(spec[i], byId) {
      assert passed == all;
    }
  }

  lemma SubsetOfSameSize(a: set<nat>, b: set<nat>)
    requires a <= b && |a| == |b|
    ensures a == b
  {
    assert b == a + (b - a);
  }

  lemma {:induction false} ByIdFinds(latest: seq<CriterionResult>, id: string)
    ensures id in ById(latest) <==> Listed(latest, id)
    ensures id in ById(latest) ==> ById(latest)[id] in latest && ById(latest)[id].criterionId == id
    decreases |latest|
  {
    if latest != [] {
      var n := |latest| - 1;
      ByIdFinds(latest[..n], id);
      assert latest == latest[..n] + [latest[n]];
    }
  }

  /**
   The reward gate over any recorded history: it opens if and only if the specification has a critical
   criterion and the latest fact the ledger holds about every critical one says that it passed.
   */
  lemma RewardGate(t: Table, executionId: string, spec: seq<SpecCriterion>, latest: seq<CriterionResult>)
    requires ValidTable(t) && ListsLatest(latest, t.rows, executionId)
    ensures AllRequiredPassed(Summary(spec, ById(latest))) <==>
              && (exists i :: 0 <= i < |spec| && spec[i].critical)
              && (forall i :: 0 <= i < |spec| && spec[i].critical ==> LatestPassed(t.rows, executionId, spec[i].id))
  {
    GateIff(spec, ById(latest));
    forall i | 0 <= i < |spec| ensures Verified(spec[i], ById(latest)) <==> LatestPassed(t.rows, executionId, spec[i].id) {
      VerifiedIff(t, executionId, spec[i].id, latest);
    }
  }

  lemma VerifiedIff(t: Table, executionId: string, id: string, latest: seq<CriterionResult>)
    requires ValidTable(t) && ListsLatest(latest, t.rows, executionId)
    ensures (id in ById(latest) && ById(latest)[id].passed) <==> LatestPassed(t.rows, executionId, id)
  {
    ByIdFinds(latest, id);
    if id in ById(latest) {
      var l := ById(latest)[id];
      assert IsLatest(t.rows, executionId, id, l);
      forall r | IsLatest(t.rows, executionId, id, r) ensures r == l {
        LatestIsUnique(t, executionId, id, r, l);
      }
    }
  }

  /** A later, failed observation of a critical criterion closes the gate, however often it passed before. */
  lemma FailureClosesGate(
    t: Table, known: set<(string, string)>, r: CriterionResult, spec: seq<SpecCriterion>, latest: seq<CriterionResult>, i: nat)
    requires ValidTable(t) && Record(t, known, r).result == Ok(true) && !r.passed
    requires i < |spec| && spec[i] == SpecCriterion(r.criterionId, true)
    requires forall o :: o in t.rows && About(o, r.executionId, r.criterionId) ==> o.observedAt <= r.observedAt
    requires ListsLatest(latest, Record(t, known, r).table.rows, r.executionId)
    ensures !AllRequiredPassed(Summary(spec, ById(latest)))
  {
    var after, row := Record(t, known, r).table, r.(id := t.nextId);
    RecordKeepsValid(t, known, r);
    NewestIsLatest(t, known, r);
    RewardGate(after, r.executionId, spec, latest);
    forall o | IsLatest(after.rows, r.executionId, r.criterionId, o) ensures !o.passed {
      LatestIsUnique(after, r.executionId, r.criterionId, o, row);
    }
  }

  lemma NewestIsLatest(t: Table, known: set<(string, string)>, r: CriterionResult)
    requires ValidTable(t) && Record(t, known, r).result == Ok(true)
    requires forall o :: o in t.rows && About(o, r.executionId, r.criterionId) ==> o.observedAt <= r.observedAt
    ensures IsLatest(Record(t, known, r).table.rows, r.executionId, r.criterionId, r.(id := t.nextId))
  {
    var after, row := Record(t, known, r).table, r.(id := t.nextId);
    assert after.rows[|t.rows|] == row;
    forall o | o in after.rows && About(o, r.executionId, r.criterionId) ensures Later(row, o) {
      assert o in t.rows || o == row;
    }
  }
}

/**
 Many outbox workers on one table.

 A run interleaves the workers' transactions in any order: a worker may stall for as long as it
 likes between claiming an event and finishing it, or crash and never finish it. `claims` is the
 history of all claims ever made; a claim is `open` until its worker has finished with it.
 */
module OutboxProtocol {
  import opened Common
  import opened Backoff
  import opened Outbox

  datatype Claim = Claim(event: Event, claimedAt: int, open: bool)

  /** `drained` records the events published because the provider that was asked reported itself disabled. */
  datatype State = State(tables: Tables, claims: seq<Claim>, drained: set<Key>)

  datatype Step =
    | Append(key: Key, row: Row, started: map<ExecutionRef, string>)
    | ClaimBatch(now: int, picked: seq<Key>)
    | HandleClaim(i: nat, observed: Observed, now: int)
    | FailClaim(i: nat, now: int)
    | Abandon(i: nat)

  /** No existing event mentions the execution: an event is written with or after its execution. */
  predicate Unmentioned(rows: map<Key, Row>, ref: ExecutionRef) {
    forall k :: k in rows && k.tenantId == ref.tenantId && rows[k].payload.Refs? ==>
      rows[k].payload != Refs(ref.taskId, ref.executionId)
  }

  predicate NewRow(row: Row) {
    row.claimedUntil.None? && row.publishedAt.None? && row.attempts == 0
  }

  predicate Enabled(s: State, step: Step) {
    match step
    case Append(key, row, started) =>
      && key !in s.tables.rows && NewRow(row)
      && (forall ref :: ref in started ==> Unmentioned(s.tables.rows, ref))
    case ClaimBatch(now, picked) => AllReady(s.tables.rows, now, picked)
    case HandleClaim(i, _, _) => i < |s.claims| && s.claims[i].open
    case FailClaim(i, _) => i < |s.claims| && s.claims[i].open
    case Abandon(i) => i < |s.claims| && s.claims[i].open
  }

  /** Only an event of an existing execution is observed at all. */
  predicate AsksProvider(t: Tables, e: Event) {
    && IsExecutionEvent(e.eventType) && e.payload.Refs?
    && ExecutionRef(e.key.tenantId, e.payload.executionId, e.payload.taskId) in t.executions
  }

  function Closed(claims: seq<Claim>, i: nat): (r: seq<Claim>)
    requires i < |claims|
    ensures |r| == |claims|
  {
    claims[i := claims[i].(open := false)]
  }

  function NewClaims(rows: map<Key, Row>, now: int, picked: seq<Key>): (cs: seq<Claim>)
    requires AllReady(rows, now, picked)
    ensures |cs| == |picked|
  {
    seq(|picked|, i requires 0 <= i < |picked| => Claim(EventOf(rows, now, picked[i]), now, true))
  }

  /**
   A worker goes on to `FailClaim` only after a failure other than a lost lease, so handling
   closes its claim when it is done or finds the lease lost.
   */
  function Apply(s: State, step: Step): State
    requires Enabled(s, step)
  {
    match step
    case Append(key, row, started) =>
      s.(tables := s.tables.(rows := s.tables.rows[key := row], executions := started + s.tables.executions))
    case ClaimBatch(now, picked) =>
      s.(tables := s.tables.(rows := ClaimedRows(s.tables.rows, now, picked)),
         claims := s.claims + NewClaims(s.tables.rows, now, picked))
    case HandleClaim(i, observed, now) =>
      var e := s.claims[i].event;
      var (tables, outcome) := Handle(s.tables, e, observed, now);
      State(tables,
            if outcome.Done? || outcome == Failed(LeaseLost) then Closed(s.claims, i) else s.claims,
            if outcome.Done? && AsksProvider(s.tables, e) && Effective(observed).disabled then s.drained + {e.key} else s.drained)
    case FailClaim(i, now) =>
      s.(tables := MarkFailureTx(s.tables, s.claims[i].event, now).0, claims := Closed(s.claims, i))
    case Abandon(i) => s.(claims := Closed(s.claims, i))
  }

  /** Is claim `i` the newest one on its event? */
  predicate Latest(claims: seq<Claim>, i: nat)
    requires i < |claims|
  {
    forall j :: i < j < |claims| ==> claims[j].event.key != claims[i].event.key
  }

  /**
   The only demand on the clock: the delay of a failure must end after the moment of the claim.
   A clock that never goes back satisfies it, and so does one that goes back by less than the delay.
   */
  predicate ClockOk(s: State, step: Step)
    requires Enabled(s, step)
  {
    step.FailClaim? ==>
      var c := s.claims[step.i];
      c.claimedAt < step.now + RetryDelay(c.event.attempts + 1)
  }

  // ---------------------------------------------------------------- invariant

  /** How the stored row of an event relates to the newest claim on it. */
  predicate RowMatches(rows: map<Key, Row>, c: Claim) {
    && c.event.key in rows
    && var row := rows[c.event.key];
    && row.eventType == c.event.eventType && row.payload == c.event.payload
    && (row.publishedAt.None? ==>
          && row.claimedUntil.Some?
          && c.claimedAt < row.claimedUntil.value
          && c.event.attempts <= row.attempts
          && (c.open ==> row.claimedUntil.value == c.event.until && row.attempts == c.event.attempts))
  }

  predicate WellTimed(c: Claim) {
    c.event.until == c.claimedAt + ClaimDuration(c.event.attempts)
  }

  /** Successive claims of one event: later in time, later deadline, and an open older one has lapsed. */
  predicate Ordered(a: Claim, b: Claim) {
    a.event.key == b.event.key ==>
      && a.claimedAt < b.claimedAt
      && a.event.until < b.event.until
      && a.event.attempts <= b.event.attempts
      && (a.open ==> a.event.until <= b.claimedAt)
  }

  predicate AllOrdered(claims: seq<Claim>) {
    forall i, j :: 0 <= i < j < |claims| ==> Ordered(claims[i], claims[j])
  }

  predicate Fenced(s: State) {
    && (forall i :: 0 <= i < |s.claims| ==> WellTimed(s.claims[i]))
    && AllOrdered(s.claims)
    && (forall i :: 0 <= i < |s.claims| ==> s.claims[i].event.key in s.tables.rows)
    && (forall i :: 0 <= i < |s.claims| && Latest(s.claims, i) ==> RowMatches(s.tables.rows, s.claims[i]))
  }

  lemma {:induction false} LatestAfter(claims: seq<Claim>, i: nat) returns (l: nat)
    requires i < |claims|
    ensures i <= l < |claims| && claims[l].event.key == claims[i].event.key && Latest(claims, l)
    decreases |claims| - i
  {
    l := i;
    if !Latest(claims, i) {
      var j :| i < j < |claims| && claims[j].event.key == claims[i].event.key;
      l := LatestAfter(claims, j);
    }
  }

  /** The fence: an open claim whose token matches the stored one is the newest claim on its event. */
  lemma OwnerIsLatest(s: State, i: nat)
    requires Fenced(s) && i < |s.claims| && s.claims[i].open
    ensures Owns(s.tables.rows, s.claims[i].event.key, s.claims[i].event.until) ==>
              && Latest(s.claims, i)
              && s.tables.rows[s.claims[i].event.key].attempts == s.claims[i].event.attempts
  {
    var l := LatestAfter(s.claims, i);
    assert RowMatches(s.tables.rows, s.claims[l]);
    if l != i {
      assert Ordered(s.claims[i], s.claims[l]);
    }
  }

  lemma ClaimOrdered(s: State, now: int, picked: seq<Key>, i: nat, j: nat)
    requires Fenced(s) && AllReady(s.tables.rows, now, picked)
    requires i < |s.claims| && j < |picked|
    ensures Ordered(s.claims[i], NewClaims(s.tables.rows, now, picked)[j])
  {
    var c := NewClaims(s.tables.rows, now, picked)[j];
    if s.claims[i].event.key == picked[j] {
      var l := LatestAfter(s.claims, i);
      assert RowMatches(s.tables.rows, s.claims[l]);
      assert WellTimed(s.claims[l]);
      DurationsGrow(s.claims[l].event.attempts, c.event.attempts);
      if i != l {
        assert Ordered(s.claims[i], s.claims[l]);
      }
    }
  }

  lemma PickedOrdered(s: State, now: int, picked: seq<Key>, i: nat, j: nat)
    requires AllReady(s.tables.rows, now, picked) && i < j < |picked|
    ensures Ordered(NewClaims(s.tables.rows, now, picked)[i], NewClaims(s.tables.rows, now, picked)[j])
  {
    assert picked[i] != picked[j];
  }

  lemma JoinOrdered(first: seq<Claim>, second: seq<Claim>)
    requires AllOrdered(first) && AllOrdered(second)
    requires forall i, j :: 0 <= i < |first| && 0 <= j < |second| ==> Ordered(first[i], second[j])
    ensures AllOrdered(first + second)
  {
    var claims := first + second;
    forall i, j | 0 <= i < j < |claims| ensures Ordered(claims[i], claims[j]) {
      assert claims[i] == if i < |first| then first[i] else second[i - |first|];
      assert claims[j] == if j < |first| then first[j] else second[j - |first|];
    }
  }

  lemma ClaimKeepsOrder(s: State, now: int, picked: seq<Key>)
    requires Fenced(s) && AllReady(s.tables.rows, now, picked)
    ensures AllOrdered(s.claims + NewClaims(s.tables.rows, now, picked))
  {
    var added := NewClaims(s.tables.rows, now, picked);
    forall i, j | 0 <= i < |s.claims| && 0 <= j < |added| ensures Ordered(s.claims[i], added[j]) {
      ClaimOrdered(s, now, picked, i, j);
    }
    forall i, j | 0 <= i < j < |added| ensures Ordered(added[i], added[j]) {
      PickedOrdered(s, now, picked, i, j);
    }
    JoinOrdered(s.claims, added);
  }

  lemma ClaimKeepsRows(s: State, now: int, picked: seq<Key>, i: nat)
    requires Fenced(s) && AllReady(s.tables.rows, now, picked)
    requires i < |s.claims| + |picked| && Latest(s.claims + NewClaims(s.tables.rows, now, picked), i)
    ensures RowMatches(ClaimedRows(s.tables.rows, now, picked), (s.claims + NewClaims(s.tables.rows, now, picked))[i])
  {
    var n := |s.claims|;
    var claims := s.claims + NewClaims(s.tables.rows, now, picked);
    if i < n {
      assert forall j :: 0 <= j < |picked| ==> claims[n + j].event.key == picked[j];
      assert claims[i].event.key !in picked;
      forall j | i < j < n
        ensures s.claims[j].event.key != s.claims[i].event.key
      {
        assert claims[j] == s.claims[j];
      }
      assert RowMatches(s.tables.rows, s.claims[i]);
    } else {
      assert claims[i].event.key == picked[i - n];
      DurationsGrow(claims[i].event.attempts, claims[i].event.attempts);
    }
  }

  lemma ClaimKeepsFenced(s: State, now: int, picked: seq<Key>)
    requires Fenced(s) && Enabled(s, ClaimBatch(now, picked))
    ensures Fenced(Apply(s, ClaimBatch(now, picked)))
  {
    var t := Apply(s, ClaimBatch(now, picked));
    ClaimKeepsOrder(s, now, picked);
    forall i | 0 <= i < |t.claims| && Latest(t.claims, i)
      ensures RowMatches(t.tables.rows, t.claims[i])
    {
      ClaimKeepsRows(s, now, picked, i);
    }
    forall i | 0 <= i < |t.claims|
      ensures WellTimed(t.claims[i]) && t.claims[i].event.key in t.tables.rows
    {
      if i < |s.claims| {
        assert WellTimed(s.claims[i]);
      }
    }
  }

  /** `after` is `before` with some claims closed. */
  predicate OnlyCloses(before: seq<Claim>, after: seq<Claim>) {
    && |before| == |after|
    && forall i :: 0 <= i < |after| ==>
         after[i].event == before[i].event && after[i].claimedAt == before[i].claimedAt && (after[i].open ==> before[i].open)
  }

  lemma ClosingKeepsOrder(s: State, t: State)
    requires Fenced(s) && OnlyCloses(s.claims, t.claims)
    ensures forall i :: 0 <= i < |t.claims| ==> WellTimed(t.claims[i])
    ensures AllOrdered(t.claims)
    ensures forall i :: 0 <= i < |t.claims| ==> Latest(t.claims, i) == Latest(s.claims, i)
  {
    forall i, j | 0 <= i < j < |t.claims|
      ensures Ordered(t.claims[i], t.claims[j])
    {
      assert Ordered(s.claims[i], s.claims[j]);
    }
    forall i | 0 <= i < |t.claims|
      ensures WellTimed(t.claims[i]) && Latest(t.claims, i) == Latest(s.claims, i)
    {
      assert WellTimed(s.claims[i]);
    }
  }

  /** Closing a claim, with or without a write to its row, keeps the invariant when the row still matches. */
  lemma WriteKeepsFenced(s: State, t: State, i: nat)
    requires Fenced(s) && i < |s.claims| && OnlyCloses(s.claims, t.claims)
    requires t.tables.rows == s.tables.rows ||
             (&& s.claims[i].event.key in t.tables.rows
              && t.tables.rows == s.tables.rows[s.claims[i].event.key := t.tables.rows[s.claims[i].event.key]]
              && Latest(s.claims, i) && RowMatches(t.tables.rows, t.claims[i]))
    ensures Fenced(t)
  {
    ClosingKeepsOrder(s, t);
    forall j | 0 <= j < |t.claims|
      ensures t.claims[j].event.key in t.tables.rows
      ensures Latest(t.claims, j) ==> RowMatches(t.tables.rows, t.claims[j])
    {
      assert s.claims[j].event.key in s.tables.rows;
      assert Latest(s.claims, j) ==> RowMatches(s.tables.rows, s.claims[j]);
      assert Latest(s.claims, j) && Latest(s.claims, i) && j != i ==> s.claims[j].event.key != s.claims[i].event.key;
    }
  }

  lemma AppendKeepsFenced(s: State, step: Step)
    requires Fenced(s) && step.Append? && Enabled(s, step)
    ensures Fenced(Apply(s, step))
  {
    var t := Apply(s, step);
    forall i | 0 <= i < |t.claims|
      ensures Latest(t.claims, i) ==> RowMatches(t.tables.rows, t.claims[i])
    {
      assert t.claims[i].event.key in s.tables.rows;
      assert Latest(s.claims, i) ==> RowMatches(s.tables.rows, s.claims[i]);
    }
  }

  lemma HandleKeepsFenced(s: State, i: nat, observed: Observed, now: int)
    requires Fenced(s) && Enabled(s, HandleClaim(i, observed, now))
    ensures Fenced(Apply(s, HandleClaim(i, observed, now)))
  {
    var t := Apply(s, HandleClaim(i, observed, now));
    var e := s.claims[i].event;
    OwnerIsLatest(s, i);
    HandleEffect(s.tables, e, observed, now);
    if t.tables.rows != s.tables.rows {
      assert RowMatches(s.tables.rows, s.claims[i]);
    }
    WriteKeepsFenced(s, t, i);
  }

  lemma FailedRowMatches(s: State, i: nat, now: int)
    requires Fenced(s) && Enabled(s, FailClaim(i, now)) && ClockOk(s, FailClaim(i, now))
    requires Owns(s.tables.rows, s.claims[i].event.key, s.claims[i].event.until)
    ensures var t := Apply(s, FailClaim(i, now)); |t.claims| == |s.claims| && RowMatches(t.tables.rows, t.claims[i])
  {
    OwnerIsLatest(s, i);
    assert RowMatches(s.tables.rows, s.claims[i]);
  }

  lemma FailKeepsFenced(s: State, i: nat, now: int)
    requires Fenced(s) && Enabled(s, FailClaim(i, now)) && ClockOk(s, FailClaim(i, now))
    ensures Fenced(Apply(s, FailClaim(i, now)))
  {
    var t := Apply(s, FailClaim(i, now));
    OwnerIsLatest(s, i);
    if Owns(s.tables.rows, s.claims[i].event.key, s.claims[i].event.until) {
      FailedRowMatches(s, i, now);
    }
    WriteKeepsFenced(s, t, i);
  }

  /** Every transaction of every worker keeps the fence. */
  lemma StepKeepsFenced(s: State, step: Step)
    requires Fenced(s) && Enabled(s, step) && ClockOk(s, step)
    ensures Fenced(Apply(s, step))
  {
    match step
    case Append(_, _, _) => AppendKeepsFenced(s, step);
    case ClaimBatch(now, picked) => ClaimKeepsFenced(s, now, picked);
    case HandleClaim(i, observed, now) => HandleKeepsFenced(s, i, observed, now);
    case FailClaim(i, now) => FailKeepsFenced(s, i, now);
    case Abandon(i) => WriteKeepsFenced(s, Apply(s, step), i);
  }

  lemma EarlyFailureBreaks(s: State, i: nat, now: int)
    requires Fenced(s) && Enabled(s, FailClaim(i, now)) && !ClockOk(s, FailClaim(i, now))
    requires Owns(s.tables.rows, s.claims[i].event.key, s.claims[i].event.until)
    ensures !Fenced(Apply(s, FailClaim(i, now)))
  {
    var t := Apply(s, FailClaim(i, now));
    OwnerIsLatest(s, i);
    assert Latest(t.claims, i) && !RowMatches(t.tables.rows, t.claims[i]);
  }

  /** The condition is exact: a step keeps the fence iff it is not an owner's failure read from a clock too far back. */
  lemma StepKeepsFencedIff(s: State, step: Step)
    requires Fenced(s) && Enabled(s, step)
    ensures Fenced(Apply(s, step)) <==>
              (ClockOk(s, step) || !Owns(s.tables.rows, s.claims[step.i].event.key, s.claims[step.i].event.until))
  {
    var t := Apply(s, step);
    if ClockOk(s, step) {
      StepKeepsFenced(s, step);
    } else if Owns(s.tables.rows, s.claims[step.i].event.key, s.claims[step.i].event.until) {
      EarlyFailureBreaks(s, step.i, step.now);
    } else {
      WriteKeepsFenced(s, t, step.i);
    }
  }

  // --------------------------------------------------------------------- runs

  predicate Init(s: State) {
    s.tables.rows == map[] && s.tables.usage == map[] && s.claims == [] && s.drained == {}
  }

  predicate IsRun(states: seq<State>, steps: seq<Step>) {
    && |states| == |steps| + 1
    && Init(states[0])
    && forall i :: 0 <= i < |steps| ==> Enabled(states[i], steps[i]) && states[i + 1] == Apply(states[i], steps[i])
  }

  predicate IsClockedRun(states: seq<State>, steps: seq<Step>) {
    && IsRun(states, steps)
    && forall i :: 0 <= i < |steps| ==> ClockOk(states[i], steps[i])
  }

  lemma {:induction false} RunIsFenced(states: seq<State>, steps: seq<Step>, n: nat)
    requires IsClockedRun(states, steps) && n < |states|
    ensures Fenced(states[n]) && PublicationsObserved(states[n])
  {
    if n > 0 {
      RunIsFenced(states, steps, n - 1);
      StepKeepsFenced(states[n - 1], steps[n - 1]);
      StepKeepsObserved(states[n - 1], steps[n - 1]);
    }
  }

  /**
   Fencing. In every state of every run, the deadlines of the claims on one event strictly increase,
   and a worker whose claim is not the newest on its event can change nothing: whatever it observed
   and whenever it wakes up, its transactions find the lease lost and leave every table alone.
   */
  lemma OnlyTheLatestClaimantWrites(states: seq<State>, steps: seq<Step>, n: nat, i: nat, j: nat, o: Observed, now: int)
    requires IsClockedRun(states, steps) && n < |states|
    requires i < j < |states[n].claims| && states[n].claims[i].event.key == states[n].claims[j].event.key
    ensures states[n].claims[i].event.until < states[n].claims[j].event.until
    ensures states[n].claims[i].open ==>
              var e := states[n].claims[i].event;
              && !Owns(states[n].tables.rows, e.key, e.until)
              && Handle(states[n].tables, e, o, now).0 == states[n].tables
              && Handle(states[n].tables, e, o, now).1.Failed?
              && MarkFailureTx(states[n].tables, e, now) == (states[n].tables, Failed(LeaseLost))
  {
    RunIsFenced(states, steps, n);
    assert Ordered(states[n].claims[i], states[n].claims[j]);
    if states[n].claims[i].open {
      OwnerIsLatest(states[n], i);
      HandleEffect(states[n].tables, states[n].claims[i].event, o, now);
    }
  }

  /** While a lease is current nobody else can be handed the event. */
  lemma CurrentLeaseExcludes(states: seq<State>, steps: seq<Step>, n: nat, i: nat, now: int)
    requires IsClockedRun(states, steps) && n < |states|
    requires i < |states[n].claims| && states[n].claims[i].open && Latest(states[n].claims, i)
    requires now < states[n].claims[i].event.until
    ensures var k := states[n].claims[i].event.key;
            k in states[n].tables.rows && !Ready(states[n].tables.rows[k], now)
  {
    RunIsFenced(states, steps, n);
    assert RowMatches(states[n].tables.rows, states[n].claims[i]);
  }

  // -------------------------------------------------------------- publication

  /** The usage table holds a complete observation of this execution from some provider. */
  ghost predicate CompletelyObserved(usage: map<UsageKey, Usage>, tenantId: string, executionId: string) {
    exists provider :: UsageKey(tenantId, executionId, provider) in usage
                       && usage[UsageKey(tenantId, executionId, provider)].coverage == Complete
  }

  /**
   A published execution event names an execution; if that execution exists, its cost was completely
   observed or its provider was disabled.
   */
  ghost predicate PublicationObserved(s: State, k: Key)
    requires k in s.tables.rows
  {
    var row := s.tables.rows[k];
    row.publishedAt.Some? && IsExecutionEvent(row.eventType) ==>
      && row.payload.Refs?
      && (ExecutionRef(k.tenantId, row.payload.executionId, row.payload.taskId) in s.tables.executions ==>
            k in s.drained || CompletelyObserved(s.tables.usage, k.tenantId, row.payload.executionId))
  }

  ghost predicate PublicationsObserved(s: State) {
    forall k :: k in s.tables.rows ==> PublicationObserved(s, k)
  }

  lemma CompleteSurvives(before: map<UsageKey, Usage>, after: map<UsageKey, Usage>, tenantId: string, executionId: string)
    requires forall u :: u in before ==> u in after && Rank(before[u].coverage) <= Rank(after[u].coverage)
    requires CompletelyObserved(before, tenantId, executionId)
    ensures CompletelyObserved(after, tenantId, executionId)
  {
    var provider :| UsageKey(tenantId, executionId, provider) in before
                    && before[UsageKey(tenantId, executionId, provider)].coverage == Complete;
    assert UsageKey(tenantId, executionId, provider) in after;
  }

  /** A handling transaction that publishes an execution event has just stored what publication needs. */
  lemma HandlePublishesObserved(t: Tables, e: Event, o: Observed, now: int)
    requires Owns(t.rows, e.key, e.until) && IsExecutionEvent(e.eventType)
    requires Handle(t, e, o, now).0.rows != t.rows
    ensures e.payload.Refs?
    ensures ExecutionRef(e.key.tenantId, e.payload.executionId, e.payload.taskId) in t.executions ==>
              Effective(o).disabled || CompletelyObserved(Handle(t, e, o, now).0.usage, e.key.tenantId, e.payload.executionId)
  {
    var t' := Handle(t, e, o, now).0;
    if ExecutionRef(e.key.tenantId, e.payload.executionId, e.payload.taskId) in t.executions && !Effective(o).disabled {
      assert t'.usage[UsageKey(e.key.tenantId, e.payload.executionId, Effective(o).provider)].coverage == Complete;
    }
  }

  lemma HandleKeepsObserved(s: State, i: nat, observed: Observed, now: int)
    requires Fenced(s) && PublicationsObserved(s) && Enabled(s, HandleClaim(i, observed, now))
    ensures PublicationsObserved(Apply(s, HandleClaim(i, observed, now)))
  {
    var t := Apply(s, HandleClaim(i, observed, now));
    var e := s.claims[i].event;
    HandleEffect(s.tables, e, observed, now);
    OwnerIsLatest(s, i);
    forall k | k in t.tables.rows
      ensures PublicationObserved(t, k)
    {
      if t.tables.rows != s.tables.rows && k == e.key {
        assert RowMatches(s.tables.rows, s.claims[i]);
        if IsExecutionEvent(e.eventType) {
          HandlePublishesObserved(s.tables, e, observed, now);
        }
      } else {
        assert PublicationObserved(s, k) && t.tables.rows[k] == s.tables.rows[k];
        if s.tables.rows[k].payload.Refs? &&
           CompletelyObserved(s.tables.usage, k.tenantId, s.tables.rows[k].payload.executionId)
        {
          CompleteSurvives(s.tables.usage, t.tables.usage, k.tenantId, s.tables.rows[k].payload.executionId);
        }
      }
    }
  }

  lemma StepKeepsObserved(s: State, step: Step)
    requires Fenced(s) && PublicationsObserved(s) && Enabled(s, step)
    ensures PublicationsObserved(Apply(s, step))
  {
    var t := Apply(s, step);
    if step.HandleClaim? {
      HandleKeepsObserved(s, step.i, step.observed, step.now);
    } else {
      forall k | k in t.tables.rows
        ensures PublicationObserved(t, k)
      {
        if k in s.tables.rows {
          assert PublicationObserved(s, k);
          assert t.tables.rows[k].publishedAt.Some? ==> t.tables.rows[k] == s.tables.rows[k];
        }
      }
    }
  }

  /** Rows are never lost, a published row never changes again, attempts never go down. */
  lemma StepKeepsRow(s: State, step: Step, k: Key)
    requires Enabled(s, step) && k in s.tables.rows
    ensures var rows := Apply(s, step).tables.rows;
            && k in rows
            && s.tables.rows[k].attempts <= rows[k].attempts
            && (s.tables.rows[k].publishedAt.Some? ==> rows[k] == s.tables.rows[k])
  {
    if step.HandleClaim? {
      HandleEffect(s.tables, s.claims[step.i].event, step.observed, step.now);
    }
  }

  lemma StepKeepsUsage(s: State, step: Step, u: UsageKey)
    requires Enabled(s, step) && u in s.tables.usage
    ensures var usage := Apply(s, step).tables.usage;
            u in usage && Rank(s.tables.usage[u].coverage) <= Rank(usage[u].coverage)
  {
    if step.HandleClaim? {
      HandleEffect(s.tables, s.claims[step.i].event, step.observed, step.now);
    }
  }

  /** Over whole runs, whatever the clock does: an event is published at most once, and stored coverage never degrades. */
  lemma {:induction false} PublishedOnce(states: seq<State>, steps: seq<Step>, m: nat, n: nat)
    requires IsRun(states, steps) && m <= n < |states|
    ensures forall k :: k in states[m].tables.rows ==>
              && k in states[n].tables.rows
              && states[m].tables.rows[k].attempts <= states[n].tables.rows[k].attempts
              && (states[m].tables.rows[k].publishedAt.Some? ==> states[n].tables.rows[k] == states[m].tables.rows[k])
    ensures forall u :: u in states[m].tables.usage ==>
              && u in states[n].tables.usage
              && Rank(states[m].tables.usage[u].coverage) <= Rank(states[n].tables.usage[u].coverage)
    decreases n - m
  {
    if m < n {
      PublishedOnce(states, steps, m, n - 1);
      forall k | k in states[m].tables.rows
        ensures k in states[n].tables.rows
        ensures states[m].tables.rows[k].attempts <= states[n].tables.rows[k].attempts
        ensures states[m].tables.rows[k].publishedAt.Some? ==> states[n].tables.rows[k] == states[m].tables.rows[k]
      {
        StepKeepsRow(states[n - 1], steps[n - 1], k);
      }
      forall u | u in states[m].tables.usage
        ensures u in states[n].tables.usage
        ensures Rank(states[m].tables.usage[u].coverage) <= Rank(states[n].tables.usage[u].coverage)
      {
        StepKeepsUsage(states[n - 1], steps[n - 1], u);
      }
    }
  }

  // ------------------------------------------------------- a clock that goes back

  const EVENT_KEY := Key("t", "e")

  /** Two workers claim the same event; the second one fails with a clock reading two seconds early. */
  function BackwardSteps(): seq<Step> {
    [Append(EVENT_KEY, Row("task.published", Malformed, 0, 0, 0, None, None), map[]),
     ClaimBatch(0, [EVENT_KEY]),
     ClaimBatch(30 * SECOND, [EVENT_KEY]),
     FailClaim(1, 28 * SECOND)]
  }

  /** Without the clock condition the token can be forged by time itself: the first worker owns the event again. */
  lemma ClockConditionIsNeeded() returns (states: seq<State>)
    ensures IsRun(states, BackwardSteps()) && !IsClockedRun(states, BackwardSteps())
    ensures var s := states[4];
            && |s.claims| == 2 && s.claims[0].open
            && s.claims[0].event.key == s.claims[1].event.key
            && Owns(s.tables.rows, EVENT_KEY, s.claims[0].event.until)
            && MarkPublishedTx(s.tables, s.claims[0].event, 29 * SECOND).1 == Done
  {
    var steps := BackwardSteps();
    var s0 := State(Tables(map[], map[], map[]), [], {});
    var s1 := Apply(s0, steps[0]);
    var s2 := Apply(s1, steps[1]);
    assert s2.tables.rows[EVENT_KEY].claimedUntil == Some(30 * SECOND);
    var s3 := Apply(s2, steps[2]);
    assert s3.tables.rows[EVENT_KEY].claimedUntil == Some(60 * SECOND);
    assert s3.claims == [Claim(Event(EVENT_KEY, "task.published", Malformed, 0, 30 * SECOND), 0, true),
                         Claim(Event(EVENT_KEY, "task.published", Malformed, 0, 60 * SECOND), 30 * SECOND, true)];
    var s4 := Apply(s3, steps[3]);
    assert RetryDelay(1) == 2 * SECOND;
    states := [s0, s1, s2, s3, s4];
    assert !ClockOk(states[3], steps[3]);
  }
}

/**
 The outbox table and the worker transactions that touch it.

 Rows are leased by writing a deadline into `claimed_until`; a worker later proves that it still
 holds the lease by presenting that same timestamp. Each function below is the effect of one
 database transaction.
 */
module Outbox {
  import opened Common
  import opened Backoff

  datatype Key = Key(tenantId: string, id: string)

  datatype Payload = Malformed | Refs(taskId: string, executionId: string)

  datatype Row = Row(
    eventType: string, payload: Payload, availableAt: int, createdAt: int,
    attempts: nat, claimedUntil: Option<int>, publishedAt: Option<int>)

  /** What a worker keeps of a row it has claimed; `until` is its fencing token. */
  datatype Event = Event(key: Key, eventType: string, payload: Payload, attempts: nat, until: int)

  datatype Coverage = NoCoverage | Unavailable | Partial | Complete

  datatype Observation = Observation(
    cost: Option<real>, selfReported: Option<real>, coverage: Coverage, provider: string, disabled: bool)

  datatype Observed = Observed(observation: Observation, providerFailed: bool)

  datatype UsageKey = UsageKey(tenantId: string, executionId: string, provider: string)
  datatype Usage = Usage(
    taskId: string, agentVersionId: string, cost: Option<real>, selfReported: Option<real>, coverage: Coverage, observedAt: int)

  /** An execution as the usage write looks it up: tenant, execution and task must all match. */
  datatype ExecutionRef = ExecutionRef(tenantId: string, executionId: string, taskId: string)

  datatype Tables = Tables(
    rows: map<Key, Row>, usage: map<UsageKey, Usage>, executions: map<ExecutionRef, string>)

  datatype HandleError = BadLimit | LeaseLost | ObservationIncomplete | ProviderError | BadPayload | BadCoverage

  datatype Handled = Done | Failed(error: HandleError)

  // ---------------------------------------------------------------- claiming

  predicate Ready(row: Row, now: int) {
    && row.availableAt <= now
    && row.publishedAt.None?
    && (row.claimedUntil.None? || row.claimedUntil.value <= now)
  }

  predicate Before(a: Row, b: Row) {
    a.availableAt < b.availableAt || (a.availableAt == b.availableAt && a.createdAt <= b.createdAt)
  }

  predicate AllReady(rows: map<Key, Row>, now: int, picked: seq<Key>) {
    && (forall i :: 0 <= i < |picked| ==> picked[i] in rows && Ready(rows[picked[i]], now))
    && (forall i, j :: 0 <= i < j < |picked| ==> picked[i] != picked[j])
  }

  /** The rows the claiming SELECT may return: ready, not locked by another transaction, oldest first. */
  ghost predicate IsClaimSelection(rows: map<Key, Row>, now: int, limit: nat, locked: set<Key>, picked: seq<Key>) {
    && AllReady(rows, now, picked)
    && |picked| <= limit
    && (forall i :: 0 <= i < |picked| ==> picked[i] !in locked)
    && (forall i, j :: 0 <= i < j < |picked| ==> Before(rows[picked[i]], rows[picked[j]]))
    && (forall k :: k in rows && Ready(rows[k], now) && k !in locked && k !in picked ==>
          |picked| == limit && forall i :: 0 <= i < |picked| ==> Before(rows[picked[i]], rows[k]))
  }

  function ClaimDeadline(row: Row, now: int): int {
    now + ClaimDuration(row.attempts)
  }

  function ClaimedRows(rows: map<Key, Row>, now: int, picked: seq<Key>): map<Key, Row> {
    map k | k in rows ::
      if k in picked then rows[k].(claimedUntil := Some(ClaimDeadline(rows[k], now))) else rows[k]
  }

  function EventOf(rows: map<Key, Row>, now: int, k: Key): Event
    requires k in rows
  {
    Event(k, rows[k].eventType, rows[k].payload, rows[k].attempts, ClaimDeadline(rows[k], now))
  }

  function EventsOf(rows: map<Key, Row>, now: int, picked: seq<Key>): (es: seq<Event>)
    requires AllReady(rows, now, picked)
    ensures |es| == |picked|
  {
    seq(|picked|, i requires 0 <= i < |picked| => EventOf(rows, now, picked[i]))
  }

  // ------------------------------------------------- finishing a claimed event

  /** The WHERE clause shared by every write of a claimant. */
  predicate Owns(rows: map<Key, Row>, k: Key, until: int) {
    k in rows && rows[k].publishedAt.None? && rows[k].claimedUntil == Some(until)
  }

  function Published(rows: map<Key, Row>, e: Event, now: int): map<Key, Row> {
    if Owns(rows, e.key, e.until)
    then rows[e.key := rows[e.key].(publishedAt := Some(now), claimedUntil := None)]
    else rows
  }

  /** `attempts` advances in the row while the delay is computed from the claimant's own copy. */
  function Rescheduled(rows: map<Key, Row>, e: Event, now: int): map<Key, Row> {
    if Owns(rows, e.key, e.until)
    then rows[e.key := rows[e.key].(
                attempts := rows[e.key].attempts + 1,
                claimedUntil := Some(now + RetryDelay(e.attempts + 1)),
                publishedAt := None)]
    else rows
  }

  function Rank(c: Coverage): nat {
    match c
    case Complete => 3
    case Partial => 2
    case _ => 1
  }

  /** A conflicting row is updated only by at least as good a coverage, and keeps its task and version. */
  function UpsertUsage(usage: map<UsageKey, Usage>, k: UsageKey, u: Usage): map<UsageKey, Usage> {
    if k !in usage then usage[k := u]
    else if Rank(u.coverage) < Rank(usage[k].coverage) then usage
    else usage[k := u.(taskId := usage[k].taskId, agentVersionId := usage[k].agentVersionId)]
  }

  /** A provider failure without any coverage is stored as `unavailable`. */
  function Effective(o: Observed): Observation {
    if o.providerFailed && o.observation.coverage == NoCoverage
    then Observation(None, None, Unavailable, "langfuse", false)
    else o.observation
  }

  predicate Publishes(o: Observed) {
    (!o.providerFailed && Effective(o).coverage == Complete) || Effective(o).disabled
  }

  function StoredCost(cost: Option<real>, coverage: Coverage): Option<real> {
    if cost.Some? && cost.value == 0.0 && coverage != Complete then None else cost
  }

  /** The usage transaction: ownership check, guarded upsert and, for a final observation, publication. */
  function UsageTx(t: Tables, e: Event, executionId: string, taskId: string, version: string, o: Observed, now: int)
    : (Tables, Handled)
  {
    var obs := Effective(o);
    if !Owns(t.rows, e.key, e.until) then (t, Failed(LeaseLost))
    else if obs.coverage == NoCoverage then (t, Failed(BadCoverage))
    else
      var usage := UpsertUsage(t.usage, UsageKey(e.key.tenantId, executionId, obs.provider),
                               Usage(taskId, version, StoredCost(obs.cost, obs.coverage),
                                     StoredCost(obs.selfReported, obs.coverage), obs.coverage, now));
      var rows := if Publishes(o) then Published(t.rows, e, now) else t.rows;
      (t.(rows := rows, usage := usage),
       if obs.disabled then Done
       else if o.providerFailed then Failed(ProviderError)
       else if obs.coverage != Complete then Failed(ObservationIncomplete)
       else Done)
  }

  predicate IsExecutionEvent(eventType: string) {
    "execution." <= eventType
  }

  /** `handle`: the single transaction it runs for this event, and what it reports. */
  function Handle(t: Tables, e: Event, o: Observed, now: int): (Tables, Handled) {
    if !IsExecutionEvent(e.eventType) then MarkPublishedTx(t, e, now)
    else
      match e.payload
      case Malformed => (t, Failed(BadPayload))
      case Refs(taskId, executionId) =>
        if taskId == "" || executionId == "" then (t, Failed(BadPayload))
        else
          var ref := ExecutionRef(e.key.tenantId, executionId, taskId);
          if ref !in t.executions then MarkPublishedTx(t, e, now)
          else UsageTx(t, e, executionId, taskId, t.executions[ref], o, now)
  }

  function MarkPublishedTx(t: Tables, e: Event, now: int): (Tables, Handled) {
    (t.(rows := Published(t.rows, e, now)), if Owns(t.rows, e.key, e.until) then Done else Failed(LeaseLost))
  }

  function MarkFailureTx(t: Tables, e: Event, now: int): (Tables, Handled) {
    (t.(rows := Rescheduled(t.rows, e, now)), if Owns(t.rows, e.key, e.until) then Done else Failed(LeaseLost))
  }

  /** Everything a handling transaction may do: nothing at all, or write as the current owner. */
  lemma HandleEffect(t: Tables, e: Event, o: Observed, now: int)
    ensures var (t', outcome) := Handle(t, e, o, now);
            && t'.executions == t.executions
            && (t'.rows == t.rows || (Owns(t.rows, e.key, e.until) && outcome.Done? && t'.rows == Published(t.rows, e, now)))
            && (!Owns(t.rows, e.key, e.until) ==> t' == t && outcome.Failed?)
            && (forall u :: u in t.usage ==> u in t'.usage && Rank(t.usage[u].coverage) <= Rank(t'.usage[u].coverage))
  {
  }

  // ------------------------------------------------------------------- worker

  /**
   The surroundings of one claimed event: what its provider and the clocks show, and what other
   workers do to the tables before its handling transaction and before its failure transaction.
   */
  datatype Reading = Reading(
    observed: Observed, handledAt: int, failedAt: int, beforeHandling: Tables -> Tables, beforeFailing: Tables -> Tables)

  /** Handle one claimed event and, when that fails otherwise than by a lost lease, put it back. */
  function Process(t: Tables, e: Event, r: Reading): (Tables, Handled) {
    var (handled, outcome) := Handle(r.beforeHandling(t), e, r.observed, r.handledAt);
    if outcome.Done? || outcome == Failed(LeaseLost) then (handled, outcome)
    else MarkFailureTx(r.beforeFailing(handled), e, r.failedAt)
  }

  datatype Batch = Batch(tables: Tables, processed: nat, error: Option<HandleError>)

  /** The claimed events in order, up to the first whose lease is lost. */
  function ProcessAll(t: Tables, events: seq<Event>, readings: seq<Reading>): Batch
    requires |events| == |readings|
    decreases |events|
  {
    if events == [] then Batch(t, 0, None)
    else
      var (next, outcome) := Process(t, events[0], readings[0]);
      if outcome.Failed? then Batch(next, 0, Some(outcome.error))
      else
        var rest := ProcessAll(next, events[1..], readings[1..]);
        rest.(processed := rest.processed + 1)
  }

  class OutboxWorker {
    var rows: map<Key, Row>
    var usage: map<UsageKey, Usage>
    var executions: map<ExecutionRef, string>

    constructor (rows: map<Key, Row>, usage: map<UsageKey, Usage>, executions: map<ExecutionRef, string>)
      ensures View() == Tables(rows, usage, executions)
    {
      this.rows, this.usage, this.executions := rows, usage, executions;
    }

    ghost function View(): Tables
      reads this
    {
      Tables(rows, usage, executions)
    }

    /** `picked` is what the locking SELECT returned at `now`. */
    method ClaimBatch(now: int, picked: seq<Key>) returns (events: seq<Event>)
      requires AllReady(rows, now, picked)
      modifies this`rows
      ensures rows == ClaimedRows(old(rows), now, picked)
      ensures events == EventsOf(old(rows), now, picked)
    {
      events := [];
      for i := 0 to |picked|
        invariant forall k :: k in rows <==> k in old(rows)
        invariant forall k :: k in rows ==>
                    rows[k] == (if k in picked[..i] then ClaimedRows(old(rows), now, picked)[k] else old(rows)[k])
        invariant |events| == i
        invariant forall j :: 0 <= j < i ==> events[j] == EventOf(old(rows), now, picked[j])
      {
        var k := picked[i];
        var row := rows[k];
        assert k !in picked[..i];
        var claimUntil := now + ClaimDuration(row.attempts);
        rows := rows[k := row.(claimedUntil := Some(claimUntil))];
        events := events + [Event(k, row.eventType, row.payload, row.attempts, claimUntil)];
        assert picked[..i + 1] == picked[..i] + [k];
      }
      assert picked[..|picked|] == picked;
    }

    method MarkPublished(e: Event, now: int) returns (outcome: Handled)
      modifies this`rows
      ensures (View(), outcome) == MarkPublishedTx(old(View()), e, now)
    {
      if e.key in rows && rows[e.key].publishedAt.None? && rows[e.key].claimedUntil == Some(e.until) {
        rows := rows[e.key := rows[e.key].(publishedAt := Some(now), claimedUntil := None)];
        return Done;
      }
      return Failed(LeaseLost);
    }

    method MarkFailure(e: Event, now: int) returns (outcome: Handled)
      modifies this`rows
      ensures (View(), outcome) == MarkFailureTx(old(View()), e, now)
    {
      if e.key in rows && rows[e.key].publishedAt.None? && rows[e.key].claimedUntil == Some(e.until) {
        var row := rows[e.key];
        var delay := RetryDelay(e.attempts + 1);
        rows := rows[e.key := row.(attempts := row.attempts + 1, claimedUntil := Some(now + delay), publishedAt := None)];
        return Done;
      }
      return Failed(LeaseLost);
    }

    method RecordUsage(e: Event, executionId: string, taskId: string, version: string, o: Observed, now: int)
      returns (outcome: Handled)
      modifies this`rows, this`usage
      ensures (View(), outcome) == UsageTx(old(View()), e, executionId, taskId, version, o, now)
    {
      var obs := o.observation;
      if o.providerFailed && obs.coverage == NoCoverage {
        obs := Observation(None, None, Unavailable, "langfuse", false);
      }
      if !(e.key in rows && rows[e.key].publishedAt.None? && rows[e.key].claimedUntil == Some(e.until)) {
        return Failed(LeaseLost);
      }
      if obs.coverage == NoCoverage {
        return Failed(BadCoverage);
      }
      var k := UsageKey(e.key.tenantId, executionId, obs.provider);
      var cost, selfReported := StoredCost(obs.cost, obs.coverage), StoredCost(obs.selfReported, obs.coverage);
      if k !in usage {
        usage := usage[k := Usage(taskId, version, cost, selfReported, obs.coverage, now)];
      } else if Rank(obs.coverage) >= Rank(usage[k].coverage) {
        usage := usage[k := usage[k].(cost := cost, selfReported := selfReported, coverage := obs.coverage, observedAt := now)];
      }
      if (!o.providerFailed && obs.coverage == Complete) || obs.disabled {
        rows := rows[e.key := rows[e.key].(publishedAt := Some(now), claimedUntil := None)];
      }
      if obs.disabled {
        return Done;
      }
      if o.providerFailed {
        return Failed(ProviderError);
      }
      if obs.coverage != Complete {
        return Failed(ObservationIncomplete);
      }
      return Done;
    }

    method HandleEvent(e: Event, o: Observed, now: int) returns (outcome: Handled)
      modifies this`rows, this`usage
      ensures (View(), outcome) == Handle(old(View()), e, o, now)
    {
      if !("execution." <= e.eventType) {
        outcome := MarkPublished(e, now);
        return;
      }
      if e.payload.Malformed? || e.payload.taskId == "" || e.payload.executionId == "" {
        return Failed(BadPayload);
      }
      var ref := ExecutionRef(e.key.tenantId, e.payload.executionId, e.payload.taskId);
      if ref !in executions {
        outcome := MarkPublished(e, now);
        return;
      }
      outcome := RecordUsage(e, e.payload.executionId, e.payload.taskId, executions[ref], o, now);
    }

    /** Other workers' transactions in between. */
    method LetOthersRun(others: Tables -> Tables)
      modifies this
      ensures View() == others(old(View()))
    {
      var next := others(Tables(rows, usage, executions));
      rows, usage, executions := next.rows, next.usage, next.executions;
    }

    method ProcessEvent(e: Event, r: Reading) returns (outcome: Handled)
      modifies this
      ensures (View(), outcome) == Process(old(View()), e, r)
    {
      LetOthersRun(r.beforeHandling);
      outcome := HandleEvent(e, r.observed, r.handledAt);
      if outcome.Done? || outcome.error == LeaseLost {
        return;
      }
      LetOthersRun(r.beforeFailing);
      outcome := MarkFailure(e, r.failedAt);
    }

    /** One batch among other workers: it claims what the SELECT returned and stops at the first lost lease. */
    method RunBatch(limit: int, now: int, locked: set<Key>, picked: seq<Key>, readings: seq<Reading>)
      returns (processed: nat, error: Option<HandleError>)
      requires 0 < limit ==> IsClaimSelection(rows, now, limit, locked, picked) && |readings| == |picked|
      modifies this
      ensures limit <= 0 ==> processed == 0 && error == Some(BadLimit) && View() == old(View())
      ensures 0 < limit ==>
                Batch(View(), processed, error)
                == ProcessAll(old(View()).(rows := ClaimedRows(old(rows), now, picked)), EventsOf(old(rows), now, picked), readings)
    {
      processed, error := 0, None;
      if limit <= 0 {
        return 0, Some(BadLimit);
      }
      var events := ClaimBatch(now, picked);
      ghost var claimed := View();
      for i := 0 to |events|
        invariant processed == i
        invariant ProcessAll(claimed, events, readings)
                  == (var rest := ProcessAll(View(), events[i..], readings[i..]); rest.(processed := rest.processed + i))
      {
        assert events[i..][1..] == events[i + 1..] && readings[i..][1..] == readings[i + 1..];
        var outcome := ProcessEvent(events[i], readings[i]);
        if outcome.Failed? {
          error := Some(outcome.error);
          return;
        }
        processed := processed + 1;
      }
    }
  }

  /** Does handling this event end it, or must it be retried? */
  predicate Finishes(executions: map<ExecutionRef, string>, e: Event, o: Observed) {
    || !IsExecutionEvent(e.eventType)
    || (&& e.payload.Refs? && e.payload.taskId != "" && e.payload.executionId != ""
        && (ExecutionRef(e.key.tenantId, e.payload.executionId, e.payload.taskId) in executions ==>
              Publishes(o) && Effective(o).coverage != NoCoverage))
  }

  /** The two ways a pass may leave a claimed row: published for good, or due again after a delay. */
  predicate Settled(executions: map<ExecutionRef, string>, e: Event, before: Row, after: Row, r: Reading) {
    after ==
      if Finishes(executions, e, r.observed)
      then before.(publishedAt := Some(r.handledAt), claimedUntil := None)
      else before.(attempts := before.attempts + 1, claimedUntil := Some(r.failedAt + RetryDelay(before.attempts + 1)))
  }

  // ------------------------------------------------------------ whole batches

  /** A batch fails only by a lost lease, and then leaves every later event alone. */
  lemma {:induction false} BatchStopsAtLoss(t: Tables, events: seq<Event>, readings: seq<Reading>)
    requires |events| == |readings|
    ensures var b := ProcessAll(t, events, readings);
            && (b.error.None? <==> b.processed == |events|)
            && (b.error.Some? ==>
                  && b.error == Some(LeaseLost) && b.processed < |events|
                  && b == ProcessAll(t, events[..b.processed + 1], readings[..b.processed + 1]))
    decreases |events|
  {
    if events != [] {
      var (next, outcome) := Process(t, events[0], readings[0]);
      if outcome.Done? {
        BatchStopsAtLoss(next, events[1..], readings[1..]);
        var rest := ProcessAll(next, events[1..], readings[1..]);
        if rest.error.Some? {
          assert events[..rest.processed + 2][1..] == events[1..][..rest.processed + 1];
          assert readings[..rest.processed + 2][1..] == readings[1..][..rest.processed + 1];
        }
      } else {
        OnlyLossFails(t, events[0], readings[0]);
        assert ProcessAll(t, events[..1], readings[..1]) == Batch(next, 0, Some(LeaseLost));
      }
    }
  }

  lemma OnlyLossFails(t: Tables, e: Event, r: Reading)
    ensures Process(t, e, r).1.Failed? ==> Process(t, e, r).1.error == LeaseLost
  {
  }

  /** No other worker touches the tables around the event. */
  ghost predicate Undisturbed(r: Reading) {
    forall t :: r.beforeHandling(t) == t && r.beforeFailing(t) == t
  }

  /** An owned event, undisturbed, ends published or due again with one more attempt. */
  lemma OwnedEventSettles(t: Tables, e: Event, r: Reading)
    requires Undisturbed(r) && Owns(t.rows, e.key, e.until) && t.rows[e.key].attempts == e.attempts
    ensures var (next, outcome) := Process(t, e, r);
            && outcome.Done? && next.executions == t.executions
            && e.key in next.rows && next.rows == t.rows[e.key := next.rows[e.key]]
            && Settled(t.executions, e, t.rows[e.key], next.rows[e.key], r)
  {
    assert r.beforeHandling(t) == t;
    var (handled, outcome) := Handle(t, e, r.observed, r.handledAt);
    assert r.beforeFailing(handled) == handled;
    if outcome.Failed? {
      assert handled.rows == t.rows;
    } else {
      assert handled.rows == Published(t.rows, e, r.handledAt);
    }
  }

  predicate Fresh(rows: map<Key, Row>, events: seq<Event>) {
    && (forall i :: 0 <= i < |events| ==>
          Owns(rows, events[i].key, events[i].until) && rows[events[i].key].attempts == events[i].attempts)
    && (forall i, j :: 0 <= i < j < |events| ==> events[i].key != events[j].key)
  }

  predicate Names(events: seq<Event>, k: Key) {
    exists i :: 0 <= i < |events| && events[i].key == k
  }

  ghost predicate AllUndisturbed(readings: seq<Reading>) {
    forall i :: 0 <= i < |readings| ==> Undisturbed(readings[i])
  }

  /** The first event of a fresh batch settles, and the rest of the batch is still fresh. */
  lemma FirstSettles(t: Tables, events: seq<Event>, readings: seq<Reading>)
    requires |events| == |readings| > 0 && Fresh(t.rows, events) && AllUndisturbed(readings)
    ensures var (next, outcome) := Process(t, events[0], readings[0]);
            && outcome.Done? && next.executions == t.executions
            && next.rows.Keys == t.rows.Keys
            && (forall k :: k in t.rows && k != events[0].key ==> next.rows[k] == t.rows[k])
            && Settled(t.executions, events[0], t.rows[events[0].key], next.rows[events[0].key], readings[0])
            && Fresh(next.rows, events[1..]) && AllUndisturbed(readings[1..])
  {
    OwnedEventSettles(t, events[0], readings[0]);
  }

  /** Undisturbed, a batch processes every claimed event and touches no other row. */
  lemma {:induction false} UndisturbedBatch(t: Tables, events: seq<Event>, readings: seq<Reading>, k: Key)
    requires |events| == |readings| && Fresh(t.rows, events) && AllUndisturbed(readings)
    ensures var b := ProcessAll(t, events, readings);
            && b.processed == |events| && b.error == None && b.tables.executions == t.executions && b.tables.rows.Keys == t.rows.Keys
            && (k in t.rows && !Names(events, k) ==> b.tables.rows[k] == t.rows[k])
    decreases |events|
  {
    if events != [] {
      FirstSettles(t, events, readings);
      UndisturbedBatch(Process(t, events[0], readings[0]).0, events[1..], readings[1..], k);
      if Names(events[1..], k) {
        var i :| 0 <= i < |events| - 1 && events[1..][i].key == k;
        assert events[i + 1].key == k;
      }
      assert events[0].key == k ==> Names(events, k);
    }
  }

  /** And it settles each of them. */
  lemma {:induction false} UndisturbedSettles(t: Tables, events: seq<Event>, readings: seq<Reading>, i: nat)
    requires i < |events| == |readings| && Fresh(t.rows, events) && AllUndisturbed(readings)
    ensures var b := ProcessAll(t, events, readings);
            && events[i].key in t.rows && events[i].key in b.tables.rows
            && Settled(t.executions, events[i], t.rows[events[i].key], b.tables.rows[events[i].key], readings[i])
    decreases |events|
  {
    FirstSettles(t, events, readings);
    var next := Process(t, events[0], readings[0]).0;
    if i == 0 {
      assert !Names(events[1..], events[0].key);
      UndisturbedBatch(next, events[1..], readings[1..], events[0].key);
    } else {
      UndisturbedSettles(next, events[1..], readings[1..], i - 1);
    }
  }

  /** So, right after its claim, an undisturbed batch publishes or reschedules exactly what it picked. */
  lemma QuietBatch(t: Tables, now: int, picked: seq<Key>, readings: seq<Reading>)
    requires AllReady(t.rows, now, picked) && |readings| == |picked| && AllUndisturbed(readings)
    ensures var b := ProcessAll(t.(rows := ClaimedRows(t.rows, now, picked)), EventsOf(t.rows, now, picked), readings);
            && b.processed == |picked| && b.error == None && b.tables.rows.Keys == t.rows.Keys
            && (forall k :: k in t.rows && k !in picked ==> b.tables.rows[k] == t.rows[k])
            && (forall i :: 0 <= i < |picked| ==>
                  Settled(t.executions, EventOf(t.rows, now, picked[i]), t.rows[picked[i]], b.tables.rows[picked[i]], readings[i]))
  {
    var claimed, events := t.(rows := ClaimedRows(t.rows, now, picked)), EventsOf(t.rows, now, picked);
    FreshlyClaimed(t, now, picked);
    UndisturbedBatch(claimed, events, readings, Key("", ""));
    forall k | k in t.rows && k !in picked
      ensures ProcessAll(claimed, events, readings).tables.rows[k] == t.rows[k]
    {
      UndisturbedBatch(claimed, events, readings, k);
    }
    forall i | 0 <= i < |picked|
      ensures Settled(t.executions, EventOf(t.rows, now, picked[i]), t.rows[picked[i]],
                      ProcessAll(claimed, events, readings).tables.rows[picked[i]], readings[i])
    {
      UndisturbedSettles(claimed, events, readings, i);
      SettledFromClaim(t, now, picked, i, ProcessAll(claimed, events, readings).tables.rows[picked[i]], readings[i]);
    }
  }

  lemma FreshlyClaimed(t: Tables, now: int, picked: seq<Key>)
    requires AllReady(t.rows, now, picked)
    ensures Fresh(ClaimedRows(t.rows, now, picked), EventsOf(t.rows, now, picked))
  {
  }

  lemma SettledFromClaim(t: Tables, now: int, picked: seq<Key>, i: nat, after: Row, r: Reading)
    requires AllReady(t.rows, now, picked) && i < |picked|
    requires Settled(t.executions, EventOf(t.rows, now, picked[i]), ClaimedRows(t.rows, now, picked)[picked[i]], after, r)
    ensures Settled(t.executions, EventOf(t.rows, now, picked[i]), t.rows[picked[i]], after, r)
  {
  }
}

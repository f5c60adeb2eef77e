/**
 Mutations made exactly once: a request acquires its idempotency record, applies its body and
 completes the record in one transaction, so that a retry replays instead of applying again.
 */
module ExactlyOnce {
  import opened Common
  import opened Domain
  import opened Idempotency
  import Lifecycle

  /** How long a completed record answers retries: 24 hours, in nanoseconds. */
  const RETENTION: int := 24 * 3600 * 1_000_000_000

  datatype Applied<A, B> = Applied(app: A, response: Response<B>)

  /**
   One request. `body` is everything between acquisition and completion, as a function of the
   application state it commits against; a retry may carry another one, since it reads another
   clock, draws other ids and read its rows at another time.
   */
  datatype Call<!A, B> = Call(key: Key, hash: string, token: Token, now: int, body: A -> Result<Applied<A, B>>)

  datatype World<A, B> = World(idem: State<B>, app: A)

  datatype Outcome<A, B> = Outcome(world: World<A, B>, reply: Result<Response<B>>)

  function Acquiring<A, B>(w: World<A, B>, c: Call<A, B>, lease: int): Acquire<B> {
    AcquireRecord(w.idem.table, c.key, c.hash, c.now + RETENTION, c.token, c.now, lease)
  }

  function Mutation<A, B>(w: World<A, B>, c: Call<A, B>, lease: int): Outcome<A, B> {
    var drawn := w.(idem := w.idem.(issued := w.idem.issued + {c.token}));
    var acquire := Acquiring(w, c, lease);
    match acquire.result
    case Err(code) => Outcome(drawn, Err(code))
    case Ok(InProgress) => Outcome(drawn, Err(StateConflict))
    case Ok(Replay(response)) => Outcome(drawn.(idem := drawn.idem.(table := acquire.table)), Ok(response))
    case Ok(Acquired(owner)) =>
      var applied := c.body(w.app);
      if applied.Err? then Outcome(drawn, Err(applied.code))
      else
        var done := CompleteRecord(acquire.table, c.key, owner, applied.value.response, c.now);
        if done.result.Err? then Outcome(drawn, Err(done.result.code))
        else Outcome(World(drawn.idem.(table := done.table), applied.value.app), Ok(applied.value.response))
  }

  /** The service's own form: one database transaction that either commits both tables or neither. */
  class Service<A(0), B> {
    var records: map<Key, Record<B>>
    var app: A

    method Mutate(c: Call<A, B>, lease: int, ghost issued: set<Token>) returns (reply: Result<Response<B>>)
      modifies this
      ensures Outcome(World(State(records, issued + {c.token}), app), reply)
              == Mutation(old(World(State(records, issued), app)), c, lease)
    {
      var tx := new Tx(records, c.now, lease);
      var acquired := tx.AcquireIdempotency(c.key, c.hash, c.now + RETENTION, c.token);
      if acquired.Err? {
        return Err(acquired.code);
      }
      var body: Result<()>;
      var next := app;
      if acquired.value.Replay? {
        body, reply := Ok(()), Ok(acquired.value.response);
      } else if acquired.value.InProgress? {
        body, reply := Err(StateConflict), Err(StateConflict);
      } else {
        var applied := c.body(app);
        if applied.Err? {
          body, reply := Err(applied.code), Err(applied.code);
        } else {
          body := tx.CompleteIdempotency(c.key, acquired.value.owner, applied.value.response);
          next := applied.value.app;
          reply := if body.Ok? then Ok(applied.value.response) else Err(body.code);
        }
      }
      var committed := tx.Finish(body);
      if committed.Ok? {
        records, app := tx.table, next;
      }
    }
  }

  // --------------------------------------------------------------------- runs

  /** Anything may happen to the application state between the mutations (`Other`). */
  datatype Step<!A, B> = Mutate(call: Call<A, B>) | Short(step: Idempotency.Step<B>) | Other(app: A)

  ghost function After<A, B>(w: World<A, B>, step: Step<A, B>, lease: int): World<A, B> {
    match step
    case Mutate(call) => Mutation(w, call, lease).world
    case Short(s) => w.(idem := Next(w.idem, s, lease))
    case Other(app) => w.(app := app)
  }

  ghost predicate Fresh<A, B>(w: World<A, B>, step: Step<A, B>) {
    match step
    case Mutate(call) => call.token !in w.idem.issued
    case Short(s) => Enabled(w.idem, s)
    case Other(_) => true
  }

  ghost predicate StepAt<A, B>(worlds: seq<World<A, B>>, steps: seq<Step<A, B>>, lease: int, i: nat)
    requires i < |steps| && |worlds| == |steps| + 1
  {
    Fresh(worlds[i], steps[i]) && worlds[i + 1] == After(worlds[i], steps[i], lease)
  }

  ghost predicate IsHistory<A, B>(worlds: seq<World<A, B>>, steps: seq<Step<A, B>>, lease: int) {
    && |worlds| == |steps| + 1
    && worlds[0].idem.table == map[]
    && forall i :: 0 <= i < |steps| ==> StepAt(worlds, steps, lease, i)
  }

  predicate On<A, B>(step: Step<A, B>, k: Key) {
    || (step.Mutate? && step.call.key == k)
    || (step.Short? && step.step.key == k)
  }

  function Clock<A, B>(step: Step<A, B>): int
    requires !step.Other?
  {
    if step.Mutate? then step.call.now else step.step.now
  }

  /** Every transaction on `k` in the segment reads the clock before `expiry`. */
  ghost predicate Within<A, B>(steps: seq<Step<A, B>>, m: nat, n: nat, k: Key, expiry: int)
    requires m <= n <= |steps|
  {
    forall i :: m <= i < n && On(steps[i], k) ==> Clock(steps[i]) < expiry
  }

  lemma {:induction false} HistoryOwnersIssued<A, B>(worlds: seq<World<A, B>>, steps: seq<Step<A, B>>, lease: int, n: nat)
    requires IsHistory(worlds, steps, lease) && n < |worlds|
    ensures OwnersIssued(worlds[n].idem)
  {
    if n > 0 {
      HistoryOwnersIssued(worlds, steps, lease, n - 1);
      assert StepAt(worlds, steps, lease, n - 1);
    }
  }

  /**
   A mutation and its completed record commit together: a reply of success leaves the record
   completed with exactly that reply, and any other reply leaves both tables as they were.
   */
  lemma CommitsTogether<A, B>(w: World<A, B>, c: Call<A, B>, lease: int)
    requires c.token !in w.idem.issued && OwnersIssued(w.idem)
    ensures var out := Mutation(w, c, lease);
            && (out.reply.Ok? ==>
                  && c.key in out.world.idem.table
                  && out.world.idem.table[c.key].response == Some(out.reply.value)
                  && out.world.idem.table[c.key].hash == c.hash
                  && c.now < out.world.idem.table[c.key].expiresAt)
            && (out.reply.Err? ==> out.world.app == w.app && out.world.idem.table == w.idem.table)
            && (out.world.app != w.app ==>
                  && out.reply.Ok?
                  && c.body(w.app) == Ok(Applied(out.world.app, out.reply.value))
                  && (c.key in w.idem.table && w.idem.table[c.key].response.Some? ==> Lapsed(w.idem.table[c.key], c.now)))
  {
  }

  lemma {:induction false} AnswerIsFrozen<A, B>(
    worlds: seq<World<A, B>>, steps: seq<Step<A, B>>, lease: int, m: nat, n: nat, k: Key)
    requires IsHistory(worlds, steps, lease) && m <= n < |worlds|
    requires k in worlds[m].idem.table && worlds[m].idem.table[k].response.Some?
    requires Within(steps, m, n, k, worlds[m].idem.table[k].expiresAt)
    ensures k in worlds[n].idem.table && worlds[n].idem.table[k] == worlds[m].idem.table[k]
    decreases n
  {
    if m < n {
      AnswerIsFrozen(worlds, steps, lease, m, n - 1, k);
      assert StepAt(worlds, steps, lease, n - 1);
    }
  }

  /**
   Exactly once. After a successful reply under a key, every later request with that key within its
   retention either carries the same request and gets the same reply, or carries another one and is
   refused; in neither case is a body applied again.
   */
  lemma RetriesReplay<A, B>(
    worlds: seq<World<A, B>>, steps: seq<Step<A, B>>, lease: int, i: nat, j: nat, k: Key)
    requires IsHistory(worlds, steps, lease) && i < j < |steps|
    requires steps[i].Mutate? && steps[i].call.key == k && steps[j].Mutate? && steps[j].call.key == k
    requires Mutation(worlds[i], steps[i].call, lease).reply.Ok?
    requires k in worlds[i + 1].idem.table && Within(steps, i + 1, j + 1, k, worlds[i + 1].idem.table[k].expiresAt)
    ensures worlds[j + 1].app == worlds[j].app
    ensures Mutation(worlds[j], steps[j].call, lease).reply ==
              if steps[j].call.hash == steps[i].call.hash then Mutation(worlds[i], steps[i].call, lease).reply
              else Err(IdempotencyMismatch)
  {
    assert StepAt(worlds, steps, lease, i);
    assert StepAt(worlds, steps, lease, j);
    HistoryOwnersIssued(worlds, steps, lease, i);
    CommitsTogether(worlds[i], steps[i].call, lease);
    AnswerIsFrozen(worlds, steps, lease, i + 1, j, k);
    assert On(steps[j], k);
  }

  /**
   When only whole mutations use a key, no pending record of it is ever committed: a request is never
   told that another one is in progress, and its answer is kept for the full retention.
   */
  lemma {:induction false} NothingPending<A, B>(
    worlds: seq<World<A, B>>, steps: seq<Step<A, B>>, lease: int, n: nat, k: Key)
    requires IsHistory(worlds, steps, lease) && n < |steps|
    requires forall i :: 0 <= i < n ==> !(steps[i].Short? && steps[i].step.key == k)
    requires steps[n].Mutate? && steps[n].call.key == k
    ensures k in worlds[n].idem.table ==> worlds[n].idem.table[k].response.Some?
    ensures Acquiring(worlds[n], steps[n].call, lease).result != Ok(Acquisition.InProgress)
    ensures Mutation(worlds[n], steps[n].call, lease).reply.Ok? && worlds[n + 1].app != worlds[n].app ==>
              k in worlds[n + 1].idem.table && worlds[n + 1].idem.table[k].expiresAt == steps[n].call.now + RETENTION
  {
    NeverPending(worlds, steps, lease, n, k);
    assert StepAt(worlds, steps, lease, n);
  }

  lemma {:induction false} NeverPending<A, B>(
    worlds: seq<World<A, B>>, steps: seq<Step<A, B>>, lease: int, n: nat, k: Key)
    requires IsHistory(worlds, steps, lease) && n < |worlds|
    requires forall i :: 0 <= i < n ==> !(steps[i].Short? && steps[i].step.key == k)
    ensures k in worlds[n].idem.table ==> worlds[n].idem.table[k].response.Some?
  {
    if n > 0 {
      NeverPending(worlds, steps, lease, n - 1, k);
      assert StepAt(worlds, steps, lease, n - 1);
      HistoryOwnersIssued(worlds, steps, lease, n - 1);
    }
  }

  // ------------------------------------------------------------------ claiming

  datatype ClaimView = ClaimView(executionId: Lifecycle.Id, execution: ExecutionState, serverTime: int)

  type Claiming = Call<Lifecycle.DB, ClaimView>

  /** The body of `ClaimTask`: the task was read at `seen`, and the new execution is named `newId`. */
  function ClaimBody(taskId: Lifecycle.Id, agentId: string, newId: Lifecycle.Id, now: int, seen: Lifecycle.DB):
    Lifecycle.DB -> Result<Applied<Lifecycle.DB, ClaimView>>
  {
    (db: Lifecycle.DB) =>
      var claimed := Lifecycle.Execute(Lifecycle.ClaimOp(taskId, agentId, newId, now), seen, seen, db);
      if claimed.Err? then Err(claimed.code)
      else if newId !in claimed.value.executions then Err(Internal)
      else Ok(Applied(claimed.value, Response(200, ClaimView(newId, claimed.value.executions[newId].state, now))))
  }

  ghost predicate IsClaim(c: Claiming) {
    exists taskId, agentId, newId, now, seen :: c.body == ClaimBody(taskId, agentId, newId, now, seen)
  }

  /** The executions a step adds. */
  function Created(before: Lifecycle.DB, after: Lifecycle.DB): set<Lifecycle.Id> {
    after.executions.Keys - before.executions.Keys
  }

  ghost function CreatedUnder(
    worlds: seq<World<Lifecycle.DB, ClaimView>>, steps: seq<Step<Lifecycle.DB, ClaimView>>, m: nat, n: nat, k: Key): set<Lifecycle.Id>
    requires m <= n < |worlds| && |worlds| == |steps| + 1
  {
    if m == n then {}
    else CreatedUnder(worlds, steps, m, n - 1, k) +
         if steps[n - 1].Mutate? && steps[n - 1].call.key == k then Created(worlds[n - 1].app, worlds[n].app) else {}
  }

  lemma ClaimAdds(
    taskId: Lifecycle.Id, agentId: string, newId: Lifecycle.Id, now: int, seen: Lifecycle.DB, db: Lifecycle.DB)
    requires Lifecycle.Execute(Lifecycle.ClaimOp(taskId, agentId, newId, now), seen, seen, db).Ok?
    ensures var after := Lifecycle.Execute(Lifecycle.ClaimOp(taskId, agentId, newId, now), seen, seen, db).value;
            Created(db, after) == {newId}
  {
    var record := Lifecycle.GetTask(seen, taskId).value;
    var w := Lifecycle.ClaimTask(db, record.id, record.row.version, newId, now);
    assert w.db.executions == db.executions;
  }

  lemma OnlyTheBodyApplies<A, B>(w: World<A, B>, c: Call<A, B>, lease: int)
    ensures var out := Mutation(w, c, lease);
            out.world.app == w.app || (out.reply.Ok? && c.body(w.app) == Ok(Applied(out.world.app, out.reply.value)))
  {
  }

  /** Whatever state the body commits against, it adds exactly the execution it replies with. */
  ghost predicate AddsItsReply(c: Claiming) {
    forall db :: c.body(db).Ok? ==> Created(db, c.body(db).value.app) == {c.body(db).value.response.body.executionId}
  }

  lemma ClaimAddsItsReply(c: Claiming)
    requires IsClaim(c)
    ensures AddsItsReply(c)
  {
    var taskId, agentId, newId, now, seen :| c.body == ClaimBody(taskId, agentId, newId, now, seen);
    forall db | c.body(db).Ok? ensures Created(db, c.body(db).value.app) == {c.body(db).value.response.body.executionId} {
      ClaimAdds(taskId, agentId, newId, now, seen, db);
    }
  }

  lemma MutationAddsItsReply(w: World<Lifecycle.DB, ClaimView>, c: Claiming, lease: int)
    requires AddsItsReply(c)
    ensures var out := Mutation(w, c, lease);
            || out.world.app == w.app
            || (out.reply.Ok? && Created(w.app, out.world.app) == {out.reply.value.body.executionId})
  {
    OnlyTheBodyApplies(w, c, lease);
  }

  ghost predicate Succeeds(
    worlds: seq<World<Lifecycle.DB, ClaimView>>, steps: seq<Step<Lifecycle.DB, ClaimView>>, lease: int, i: nat, k: Key)
    requires i < |steps| && |worlds| == |steps| + 1
  {
    steps[i].Mutate? && steps[i].call.key == k && Mutation(worlds[i], steps[i].call, lease).reply.Ok?
  }

  lemma {:induction false} NothingWithoutSuccess(
    worlds: seq<World<Lifecycle.DB, ClaimView>>, steps: seq<Step<Lifecycle.DB, ClaimView>>, lease: int, m: nat, n: nat, k: Key)
    requires IsHistory(worlds, steps, lease) && m <= n < |worlds|
    requires forall j :: m <= j < n ==> !Succeeds(worlds, steps, lease, j, k)
    ensures CreatedUnder(worlds, steps, m, n, k) == {}
    decreases n
  {
    if m < n {
      NothingWithoutSuccess(worlds, steps, lease, m, n - 1, k);
      assert StepAt(worlds, steps, lease, n - 1) && !Succeeds(worlds, steps, lease, n - 1, k);
      HistoryOwnersIssued(worlds, steps, lease, n - 1);
      if steps[n - 1].Mutate? && steps[n - 1].call.key == k {
        CommitsTogether(worlds[n - 1], steps[n - 1].call, lease);
      }
    }
  }

  ghost predicate Retained(
    worlds: seq<World<Lifecycle.DB, ClaimView>>, steps: seq<Step<Lifecycle.DB, ClaimView>>, lease: int, m: nat, n: nat, k: Key)
    requires m <= n < |worlds| && |worlds| == |steps| + 1
  {
    forall i :: m <= i < n && Succeeds(worlds, steps, lease, i, k) ==>
      k in worlds[i + 1].idem.table && Within(steps, i + 1, n, k, worlds[i + 1].idem.table[k].expiresAt)
  }

  ghost function ReplyId(
    worlds: seq<World<Lifecycle.DB, ClaimView>>, steps: seq<Step<Lifecycle.DB, ClaimView>>, lease: int, i: nat, k: Key): Lifecycle.Id
    requires i < |steps| && |worlds| == |steps| + 1 && Succeeds(worlds, steps, lease, i, k)
  {
    Mutation(worlds[i], steps[i].call, lease).reply.value.body.executionId
  }

  lemma EarlierSuccessAnswers(
    worlds: seq<World<Lifecycle.DB, ClaimView>>, steps: seq<Step<Lifecycle.DB, ClaimView>>, lease: int, m: nat, i: nat, n: nat, k: Key)
    requires IsHistory(worlds, steps, lease) && m <= i < n < |steps|
    requires Retained(worlds, steps, lease, m, n + 1, k)
    requires Succeeds(worlds, steps, lease, i, k) && steps[n].Mutate? && steps[n].call.key == k
    ensures worlds[n + 1].app == worlds[n].app
    ensures Succeeds(worlds, steps, lease, n, k) ==>
              Mutation(worlds[i], steps[i].call, lease).reply == Mutation(worlds[n], steps[n].call, lease).reply
  {
    RetriesReplay(worlds, steps, lease, i, n, k);
  }

  /** `created` is at most one execution, and the one every successful claim of the segment replies with. */
  ghost predicate NamedByReplies(
    worlds: seq<World<Lifecycle.DB, ClaimView>>, steps: seq<Step<Lifecycle.DB, ClaimView>>, lease: int, m: nat, n: nat, k: Key, created: set<Lifecycle.Id>)
    requires m <= n < |worlds| && |worlds| == |steps| + 1
  {
    && |created| <= 1
    && forall i :: m <= i < n && Succeeds(worlds, steps, lease, i, k) ==> created <= {ReplyId(worlds, steps, lease, i, k)}
  }

  lemma NamedAfterSuccess(
    worlds: seq<World<Lifecycle.DB, ClaimView>>, steps: seq<Step<Lifecycle.DB, ClaimView>>, lease: int, m: nat, i: nat, n: nat, k: Key, created: set<Lifecycle.Id>)
    requires IsHistory(worlds, steps, lease) && m <= i < n < |steps|
    requires Retained(worlds, steps, lease, m, n + 1, k) && Succeeds(worlds, steps, lease, i, k)
    requires steps[n].Mutate? && steps[n].call.key == k
    requires NamedByReplies(worlds, steps, lease, m, n, k, created)
    ensures Created(worlds[n].app, worlds[n + 1].app) == {}
    ensures NamedByReplies(worlds, steps, lease, m, n + 1, k, created)
  {
    EarlierSuccessAnswers(worlds, steps, lease, m, i, n, k);
  }

  lemma LastStepCreates(
    worlds: seq<World<Lifecycle.DB, ClaimView>>, steps: seq<Step<Lifecycle.DB, ClaimView>>, lease: int, n: nat, k: Key)
    requires IsHistory(worlds, steps, lease) && n < |steps|
    requires steps[n].Mutate? && steps[n].call.key == k && AddsItsReply(steps[n].call)
    ensures || Created(worlds[n].app, worlds[n + 1].app) == {}
            || (Succeeds(worlds, steps, lease, n, k)
                && Created(worlds[n].app, worlds[n + 1].app) == {ReplyId(worlds, steps, lease, n, k)})
  {
    assert StepAt(worlds, steps, lease, n);
    MutationAddsItsReply(worlds[n], steps[n].call, lease);
  }

  lemma RetainedPrefix(
    worlds: seq<World<Lifecycle.DB, ClaimView>>, steps: seq<Step<Lifecycle.DB, ClaimView>>, lease: int, m: nat, j: nat, n: nat, k: Key)
    requires m <= j <= n <= |steps| && |worlds| == |steps| + 1 && Retained(worlds, steps, lease, m, n, k)
    ensures Retained(worlds, steps, lease, m, j, k)
  {
  }

  lemma NamedByNext(
    worlds: seq<World<Lifecycle.DB, ClaimView>>, steps: seq<Step<Lifecycle.DB, ClaimView>>, lease: int, m: nat, n: nat, k: Key, earlier: set<Lifecycle.Id>)
    requires IsHistory(worlds, steps, lease) && m <= n < |steps|
    requires Retained(worlds, steps, lease, m, n + 1, k)
    requires steps[n].Mutate? && steps[n].call.key == k && AddsItsReply(steps[n].call)
    requires earlier == CreatedUnder(worlds, steps, m, n, k) && NamedByReplies(worlds, steps, lease, m, n, k, earlier)
    ensures NamedByReplies(worlds, steps, lease, m, n + 1, k, earlier + Created(worlds[n].app, worlds[n + 1].app))
  {
    if i :| m <= i < n && Succeeds(worlds, steps, lease, i, k) {
      NamedAfterSuccess(worlds, steps, lease, m, i, n, k, earlier);
      assert earlier + {} == earlier;
    } else {
      NothingWithoutSuccess(worlds, steps, lease, m, n, k);
      NamedAtFirst(worlds, steps, lease, m, n, k);
      assert {} + Created(worlds[n].app, worlds[n + 1].app) == Created(worlds[n].app, worlds[n + 1].app);
    }
  }

  lemma NamedAtFirst(
    worlds: seq<World<Lifecycle.DB, ClaimView>>, steps: seq<Step<Lifecycle.DB, ClaimView>>, lease: int, m: nat, n: nat, k: Key)
    requires IsHistory(worlds, steps, lease) && m <= n < |steps|
    requires steps[n].Mutate? && steps[n].call.key == k && AddsItsReply(steps[n].call)
    requires forall i :: m <= i < n ==> !Succeeds(worlds, steps, lease, i, k)
    ensures NamedByReplies(worlds, steps, lease, m, n + 1, k, Created(worlds[n].app, worlds[n + 1].app))
  {
    LastStepCreates(worlds, steps, lease, n, k);
  }

  ghost predicate ClaimsAt(steps: seq<Step<Lifecycle.DB, ClaimView>>, j: nat, k: Key)
    requires j < |steps|
  {
    steps[j].Mutate? && steps[j].call.key == k ==> AddsItsReply(steps[j].call)
  }

  /** A step that is no request under the key changes neither side. */
  lemma CreatedSkip(worlds: seq<World<Lifecycle.DB, ClaimView>>, steps: seq<Step<Lifecycle.DB, ClaimView>>, m: nat, n: nat, k: Key)
    requires |worlds| == |steps| + 1 && m <= n < |steps| && !(steps[n].Mutate? && steps[n].call.key == k)
    ensures CreatedUnder(worlds, steps, m, n + 1, k) == CreatedUnder(worlds, steps, m, n, k)
  {
    assert CreatedUnder(worlds, steps, m, n, k) + {} == CreatedUnder(worlds, steps, m, n, k);
  }

  lemma NamedBySkip(
    worlds: seq<World<Lifecycle.DB, ClaimView>>, steps: seq<Step<Lifecycle.DB, ClaimView>>, lease: int, m: nat, n: nat, k: Key,
    earlier: set<Lifecycle.Id>)
    requires |worlds| == |steps| + 1 && m <= n < |steps| && !(steps[n].Mutate? && steps[n].call.key == k)
    requires NamedByReplies(worlds, steps, lease, m, n, k, earlier)
    ensures NamedByReplies(worlds, steps, lease, m, n + 1, k, earlier)
  {
    assert !Succeeds(worlds, steps, lease, n, k);
  }

  /** What a segment created under the key, as its replies name it. */
  ghost predicate Named(
    worlds: seq<World<Lifecycle.DB, ClaimView>>, steps: seq<Step<Lifecycle.DB, ClaimView>>, lease: int, m: nat, n: nat, k: Key)
    requires m <= n < |worlds| && |worlds| == |steps| + 1
  {
    NamedByReplies(worlds, steps, lease, m, n, k, CreatedUnder(worlds, steps, m, n, k))
  }

  lemma NamedAtStart(
    worlds: seq<World<Lifecycle.DB, ClaimView>>, steps: seq<Step<Lifecycle.DB, ClaimView>>, lease: int, m: nat, k: Key)
    requires |worlds| == |steps| + 1 && m < |worlds|
    ensures Named(worlds, steps, lease, m, m, k)
  {
  }

  lemma NamedByStep(
    worlds: seq<World<Lifecycle.DB, ClaimView>>, steps: seq<Step<Lifecycle.DB, ClaimView>>, lease: int, m: nat, n: nat, k: Key)
    requires IsHistory(worlds, steps, lease) && m <= n < |steps| && ClaimsAt(steps, n, k)
    requires Retained(worlds, steps, lease, m, n + 1, k) && Named(worlds, steps, lease, m, n, k)
    ensures Named(worlds, steps, lease, m, n + 1, k)
  {
    var earlier := CreatedUnder(worlds, steps, m, n, k);
    if steps[n].Mutate? && steps[n].call.key == k {
      NamedByNext(worlds, steps, lease, m, n, k, earlier);
    } else {
      CreatedSkip(worlds, steps, m, n, k);
      NamedBySkip(worlds, steps, lease, m, n, k, earlier);
    }
  }

  ghost predicate Advances(
    worlds: seq<World<Lifecycle.DB, ClaimView>>, steps: seq<Step<Lifecycle.DB, ClaimView>>, lease: int, m: nat, j: nat, k: Key)
    requires m <= j < |steps| && |worlds| == |steps| + 1
  {
    Named(worlds, steps, lease, m, j, k) ==> Named(worlds, steps, lease, m, j + 1, k)
  }

  lemma {:induction false} NamedByEvery(
    worlds: seq<World<Lifecycle.DB, ClaimView>>, steps: seq<Step<Lifecycle.DB, ClaimView>>, lease: int, m: nat, n: nat, k: Key)
    requires |worlds| == |steps| + 1 && m <= n <= |steps|
    requires forall j :: m <= j < n ==> Advances(worlds, steps, lease, m, j, k)
    ensures Named(worlds, steps, lease, m, n, k)
    decreases n
  {
    if m == n {
      NamedAtStart(worlds, steps, lease, m, k);
    } else {
      NamedByEvery(worlds, steps, lease, m, n - 1, k);
      assert Advances(worlds, steps, lease, m, n - 1, k);
    }
  }

  /**
   Exactly-once claims. However claims under one key are retried, interleaved and failed, as long as
   no request comes after the retention of a successful one, at most one execution is created, and
   it is the one every successful reply names.
   */
  lemma OneExecutionPerKey(
    worlds: seq<World<Lifecycle.DB, ClaimView>>, steps: seq<Step<Lifecycle.DB, ClaimView>>, lease: int, m: nat, n: nat, k: Key)
    requires IsHistory(worlds, steps, lease) && m <= n < |worlds|
    requires forall j :: m <= j < n && steps[j].Mutate? && steps[j].call.key == k ==> IsClaim(steps[j].call)
    requires Retained(worlds, steps, lease, m, n, k)
    ensures NamedByReplies(worlds, steps, lease, m, n, k, CreatedUnder(worlds, steps, m, n, k))
  {
    forall j | m <= j < n ensures Advances(worlds, steps, lease, m, j, k) {
      if steps[j].Mutate? && steps[j].call.key == k {
        ClaimAddsItsReply(steps[j].call);
      }
      RetainedPrefix(worlds, steps, lease, m, j + 1, n, k);
      if Named(worlds, steps, lease, m, j, k) {
        NamedByStep(worlds, steps, lease, m, j, k);
      }
    }
    NamedByEvery(worlds, steps, lease, m, n, k);
  }

  /** All successful claims under a key reply alike. */
  lemma RepliesAgree(
    worlds: seq<World<Lifecycle.DB, ClaimView>>, steps: seq<Step<Lifecycle.DB, ClaimView>>, lease: int, m: nat, n: nat, k: Key, i: nat, j: nat)
    requires IsHistory(worlds, steps, lease) && m <= i < j < n < |worlds|
    requires Retained(worlds, steps, lease, m, n, k)
    requires Succeeds(worlds, steps, lease, i, k) && Succeeds(worlds, steps, lease, j, k)
    ensures Mutation(worlds[i], steps[i].call, lease).reply == Mutation(worlds[j], steps[j].call, lease).reply
  {
    RetriesReplay(worlds, steps, lease, i, j, k);
  }
}

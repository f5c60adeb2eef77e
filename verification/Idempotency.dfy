/**
 Idempotency records: one row per request key, owned by a token while the request is pending and
 holding the response once it is complete.
 */
module Idempotency {
  import opened Common

  type Token = nat

  datatype Key = Key(tenantId: string, actorId: string, operation: string, requestId: string)

  datatype Response<B> = Response(code: int, body: B)

  datatype Record<B> = Record(
    hash: string, owner: Token, response: Option<Response<B>>, expiresAt: int, updatedAt: int)

  /** What an acquisition returns when it is not refused. */
  datatype Acquisition<B> = Replay(response: Response<B>) | Acquired(owner: Token) | InProgress

  datatype Acquire<B> = Acquire(table: map<Key, Record<B>>, result: Result<Acquisition<B>>)

  /** The pending lease: an owner that has not completed or renewed for this long may be displaced. */
  predicate Stale<B>(record: Record<B>, now: int, lease: int) {
    record.response.None? && record.updatedAt <= now - lease
  }

  predicate Lapsed<B>(record: Record<B>, now: int) {
    record.expiresAt <= now
  }

  function AcquireRecord<B>(
    table: map<Key, Record<B>>, key: Key, hash: string, expiresAt: int, token: Token, now: int, lease: int): Acquire<B>
  {
    var inserted := if key in table then table else table[key := Record(hash, token, None, expiresAt, now)];
    var record := inserted[key];
    if Lapsed(record, now) then
      Acquire(inserted[key := Record(hash, token, None, expiresAt, now)], Ok(Acquired(token)))
    else if record.hash != hash then Acquire(table, Err(IdempotencyMismatch))
    else if record.response.Some? then Acquire(inserted, Ok(Replay(record.response.value)))
    else if record.owner == token then Acquire(inserted, Ok(Acquired(token)))
    else if Stale(record, now, lease) then
      Acquire(inserted[key := record.(owner := token, updatedAt := now)], Ok(Acquired(token)))
    else Acquire(inserted, Ok(InProgress))
  }

  predicate OwnsPending<B>(table: map<Key, Record<B>>, key: Key, owner: Token) {
    key in table && table[key].owner == owner && table[key].response.None?
  }

  datatype Guarded<B> = Guarded(table: map<Key, Record<B>>, result: Result<()>)

  function RenewRecord<B>(table: map<Key, Record<B>>, key: Key, owner: Token, now: int): Guarded<B> {
    if OwnsPending(table, key, owner) then Guarded(table[key := table[key].(updatedAt := now)], Ok(()))
    else Guarded(table, Err(IdempotencyNotOwner))
  }

  function CompleteRecord<B>(table: map<Key, Record<B>>, key: Key, owner: Token, response: Response<B>, now: int): Guarded<B> {
    if OwnsPending(table, key, owner) then
      Guarded(table[key := table[key].(response := Some(response), updatedAt := now)], Ok(()))
    else Guarded(table, Err(IdempotencyNotOwner))
  }

  /**
   One transaction over the records. Its clock is read once; `acquired` holds the keys it has
   acquired and not completed, and a commit is refused while any is left.
   */
  class Tx<B> {
    var table: map<Key, Record<B>>
    var acquired: map<Key, Token>
    const before: map<Key, Record<B>>
    const now: int
    const lease: int

    constructor (table: map<Key, Record<B>>, now: int, lease: int)
      ensures this.table == table && before == table && acquired == map[] && this.now == now && this.lease == lease
    {
      this.table, before, acquired, this.now, this.lease := table, table, map[], now, lease;
    }

    /** `newToken` is the random token drawn when this transaction has not acquired the key before. */
    method AcquireIdempotency(key: Key, hash: string, expiresAt: int, newToken: Token) returns (r: Result<Acquisition<B>>)
      modifies this`table, this`acquired
      ensures var token := if key in old(acquired) then old(acquired)[key] else newToken;
              && Acquire(table, r) == AcquireRecord(old(table), key, hash, expiresAt, token, now, lease)
              && acquired == if r.Ok? && r.value.Acquired? then old(acquired)[key := token] else old(acquired)
    {
      var token := newToken;
      if key in acquired {
        token := acquired[key];
      }
      var saved := table;
      if key !in table {
        table := table[key := Record(hash, token, None, expiresAt, now)];
      }
      var record := table[key];
      if record.expiresAt <= now {
        table := table[key := Record(hash, token, None, expiresAt, now)];
        acquired := acquired[key := token];
        return Ok(Acquired(token));
      }
      if record.hash != hash {
        table := saved;
        return Err(IdempotencyMismatch);
      }
      if record.response.Some? {
        return Ok(Replay(record.response.value));
      }
      if record.owner == token {
        acquired := acquired[key := token];
        return Ok(Acquired(token));
      }
      if record.updatedAt <= now - lease {
        table := table[key := record.(owner := token, updatedAt := now)];
        acquired := acquired[key := token];
        return Ok(Acquired(token));
      }
      return Ok(InProgress);
    }

    method RenewIdempotency(key: Key, owner: Token) returns (r: Result<()>)
      modifies this`table
      ensures Guarded(table, r) == RenewRecord(old(table), key, owner, now)
    {
      if !(key in table && table[key].owner == owner && table[key].response.None?) {
        return Err(IdempotencyNotOwner);
      }
      table := table[key := table[key].(updatedAt := now)];
      return Ok(());
    }

    method CompleteIdempotency(key: Key, owner: Token, response: Response<B>) returns (r: Result<()>)
      modifies this`table, this`acquired
      ensures Guarded(table, r) == CompleteRecord(old(table), key, owner, response, now)
      ensures acquired == if r.Ok? then old(acquired) - {key} else old(acquired)
    {
      if !(key in table && table[key].owner == owner && table[key].response.None?) {
        return Err(IdempotencyNotOwner);
      }
      table := table[key := table[key].(response := Some(response), updatedAt := now)];
      acquired := acquired - {key};
      return Ok(());
    }

    /** The end of `WithTx`: commit only with no acquired key left pending, otherwise roll back. */
    method Finish(body: Result<()>) returns (r: Result<()>)
      modifies this`table
      ensures body.Err? ==> r == body && table == before
      ensures body.Ok? && acquired != map[] ==> r == Err(IdempotencyIncomplete) && table == before
      ensures body.Ok? && acquired == map[] ==> r == Ok(()) && table == old(table)
    {
      if body.Err? {
        table := before;
        return body;
      }
      if |acquired| != 0 {
        table := before;
        return Err(IdempotencyIncomplete);
      }
      return Ok(());
    }
  }

  // --------------------------------------------------------------------- runs

  /** `issued` holds every token ever drawn; a fresh draw is never among them. */
  datatype State<B> = State(table: map<Key, Record<B>>, issued: set<Token>)

  datatype Step<B> =
    | AcquireStep(key: Key, hash: string, expiresAt: int, token: Token, now: int)
    | RenewStep(key: Key, owner: Token, now: int)
    | CompleteStep(key: Key, owner: Token, response: Response<B>, now: int)

  predicate Enabled<B>(s: State<B>, step: Step<B>) {
    step.AcquireStep? ==> step.token !in s.issued
  }

  function Next<B>(s: State<B>, step: Step<B>, lease: int): State<B> {
    match step
    case AcquireStep(key, hash, expiresAt, token, now) =>
      State(AcquireRecord(s.table, key, hash, expiresAt, token, now, lease).table, s.issued + {token})
    case RenewStep(key, owner, now) => s.(table := RenewRecord(s.table, key, owner, now).table)
    case CompleteStep(key, owner, response, now) => s.(table := CompleteRecord(s.table, key, owner, response, now).table)
  }

  predicate IsRun<B(==)>(states: seq<State<B>>, steps: seq<Step<B>>, lease: int) {
    && |states| == |steps| + 1
    && states[0].table == map[]
    && forall i :: 0 <= i < |steps| ==> Enabled(states[i], steps[i]) && states[i + 1] == Next(states[i], steps[i], lease)
  }

  predicate OwnersIssued<B>(s: State<B>) {
    forall k :: k in s.table ==> s.table[k].owner in s.issued
  }

  lemma {:induction false} OwnersAreIssued<B>(states: seq<State<B>>, steps: seq<Step<B>>, lease: int, m: nat, n: nat)
    requires IsRun(states, steps, lease) && m <= n < |states|
    ensures OwnersIssued(states[m]) && states[m].issued <= states[n].issued
    ensures forall k :: k in states[m].table ==> k in states[n].table
    decreases n
  {
    if m < n {
      OwnersAreIssued(states, steps, lease, m, n - 1);
    } else if m > 0 {
      OwnersAreIssued(states, steps, lease, m - 1, n - 1);
    }
  }

  /** An owner is displaced only by a fresh acquisition, when the retention is over or the pending lease is stale. */
  lemma DisplacedOnlyWhenDue<B>(s: State<B>, step: Step<B>, lease: int, k: Key)
    requires Enabled(s, step) && OwnersIssued(s) && k in s.table
    ensures k in Next(s, step, lease).table
    ensures Next(s, step, lease).table[k].owner != s.table[k].owner <==>
              && step.AcquireStep? && step.key == k
              && (Lapsed(s.table[k], step.now) || (step.hash == s.table[k].hash && Stale(s.table[k], step.now, lease)))
  {
  }

  /**
   Fencing: once a token has been displaced it never owns the key again, and neither a renewal nor a
   completion under it has any effect.
   */
  lemma {:induction false} DisplacedIsFenced<B>(
    states: seq<State<B>>, steps: seq<Step<B>>, lease: int, m: nat, i: nat, n: nat, k: Key, response: Response<B>, now: int)
    requires IsRun(states, steps, lease) && m <= i <= n < |states|
    requires k in states[m].table && k in states[i].table && states[i].table[k].owner != states[m].table[k].owner
    ensures k in states[n].table && states[n].table[k].owner != states[m].table[k].owner
    ensures RenewRecord(states[n].table, k, states[m].table[k].owner, now) == Guarded(states[n].table, Err(IdempotencyNotOwner))
    ensures CompleteRecord(states[n].table, k, states[m].table[k].owner, response, now)
            == Guarded(states[n].table, Err(IdempotencyNotOwner))
    decreases n
  {
    OwnersAreIssued(states, steps, lease, m, i);
    OwnersAreIssued(states, steps, lease, m, n);
    if i < n {
      DisplacedIsFenced(states, steps, lease, m, i, n - 1, k, response, now);
      OwnersAreIssued(states, steps, lease, m, n - 1);
      OwnersAreIssued(states, steps, lease, n - 1, n - 1);
      DisplacedOnlyWhenDue(states[n - 1], steps[n - 1], lease, k);
    }
  }

  /** No transaction on `k` in the segment reads the clock at or after `expiry`. */
  predicate WithinRetention<B>(steps: seq<Step<B>>, m: nat, n: nat, k: Key, expiry: int)
    requires m <= n <= |steps|
  {
    forall i :: m <= i < n && steps[i].key == k ==> steps[i].now < expiry
  }

  /**
   A completed record is frozen until it expires, whoever acquires, renews or completes meanwhile;
   the same request replays the stored response and a different one is refused.
   */
  lemma {:induction false} CompletedIsFrozen<B>(
    states: seq<State<B>>, steps: seq<Step<B>>, lease: int, m: nat, n: nat, k: Key,
    hash: string, expiresAt: int, token: Token, now: int)
    requires IsRun(states, steps, lease) && m <= n < |states|
    requires k in states[m].table && states[m].table[k].response.Some?
    requires WithinRetention(steps, m, n, k, states[m].table[k].expiresAt) && now < states[m].table[k].expiresAt
    ensures k in states[n].table && states[n].table[k] == states[m].table[k]
    ensures AcquireRecord(states[n].table, k, hash, expiresAt, token, now, lease) ==
              Acquire(states[n].table,
                      if hash == states[m].table[k].hash then Ok(Replay(states[m].table[k].response.value))
                      else Err(IdempotencyMismatch))
    decreases n
  {
    if m < n {
      CompletedIsFrozen(states, steps, lease, m, n - 1, k, hash, expiresAt, token, now);
    }
  }

  /** A pending owner that keeps within its lease cannot be displaced before the retention ends. */
  lemma FreshOwnerIsSafe<B>(s: State<B>, step: Step<B>, lease: int, k: Key)
    requires Enabled(s, step) && OwnersIssued(s) && k in s.table && s.table[k].response.None?
    requires step.now < s.table[k].expiresAt && step.now < s.table[k].updatedAt + lease
    ensures k in Next(s, step, lease).table && Next(s, step, lease).table[k].owner == s.table[k].owner
    ensures step.AcquireStep? && step.key == k ==>
              AcquireRecord(s.table, k, step.hash, step.expiresAt, step.token, step.now, lease).result ==
                if step.hash == s.table[k].hash then Ok(InProgress) else Err(IdempotencyMismatch)
  {
    DisplacedOnlyWhenDue(s, step, lease, k);
  }
}

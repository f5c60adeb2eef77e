/**
 The in-process token bucket. Durations and instants are whole nanoseconds; the token count is a
 real number, as rounding is not the point here.
 */
module RateLimit {
  import opened Common
  import opened Tables

  datatype Key = Key(tenantId: string, agentId: string, agentVersionId: string)

  datatype Decision = Allowed | Denied(retryAfter: int)

  datatype Bucket = Bucket(tokens: real, last: int)

  datatype Config = Config(rate: int, burst: int)

  predicate ValidConfig(c: Config) {
    c.rate > 0 && c.burst > 0
  }

  function BucketId(key: Key): string {
    key.tenantId + "|" + key.agentId
  }

  /** The tokens that accrue over `elapsed`. */
  function Accrued(c: Config, elapsed: int): real
    requires ValidConfig(c)
  {
    elapsed as real / c.rate as real
  }

  function Lesser(a: real, b: real): real {
    if a <= b then a else b
  }

  /** The tokens available to a call at `now`; an absent bucket is a full one. */
  function Level(c: Config, b: Option<Bucket>, now: int): real
    requires ValidConfig(c)
  {
    if b.None? then c.burst as real
    else if now > b.value.last then Lesser(c.burst as real, b.value.tokens + Accrued(c, now - b.value.last))
    else b.value.tokens
  }

  function Take(c: Config, b: Option<Bucket>, now: int): Bucket
    requires ValidConfig(c)
  {
    var level := Level(c, b, now);
    Bucket(if level >= 1.0 then level - 1.0 else level, if b.Some? && now <= b.value.last then b.value.last else now)
  }

  function Wait(c: Config, level: real): int
    requires ValidConfig(c)
  {
    var wait := ((1.0 - level) * c.rate as real).Floor;
    if wait <= 0 then c.rate else wait
  }

  function Decide(c: Config, b: Option<Bucket>, now: int): Decision
    requires ValidConfig(c)
  {
    if Level(c, b, now) >= 1.0 then Allowed else Denied(Wait(c, Level(c, b, now)))
  }

  function Lookup(buckets: map<string, Bucket>, id: string): Option<Bucket> {
    if id in buckets then Some(buckets[id]) else None
  }

  class LocalBucket {
    const config: Config
    var buckets: map<string, Bucket>

    ghost predicate Valid()
      reads this
    {
      ValidConfig(config)
    }

    constructor (config: Config)
      requires ValidConfig(config)
      ensures Valid() && this.config == config && buckets == map[]
    {
      this.config, buckets := config, map[];
    }

    method Allow(key: Key, now: int) returns (d: Decision)
      requires Valid()
      modifies this`buckets
      ensures Valid()
      ensures var b := Lookup(old(buckets), BucketId(key));
              d == Decide(config, b, now) && buckets == old(buckets)[BucketId(key) := Take(config, b, now)]
    {
      var id := BucketId(key);
      if id !in buckets {
        buckets := buckets[id := Bucket(config.burst as real - 1.0, now)];
        return Allowed;
      }
      var b := buckets[id];
      var elapsed := now - b.last;
      if elapsed > 0 {
        var refill := elapsed as real / config.rate as real;
        b := Bucket(Lesser(config.burst as real, b.tokens + refill), now);
        buckets := buckets[id := b];
      }
      if b.tokens >= 1.0 {
        b := b.(tokens := b.tokens - 1.0);
        buckets := buckets[id := b];
        return Allowed;
      }
      var deficit := 1.0 - b.tokens;
      var retryAfter := (deficit * config.rate as real).Floor;
      if retryAfter <= 0 {
        retryAfter := config.rate;
      }
      assert buckets == old(buckets)[id := b];
      return Denied(retryAfter);
    }
  }

  /** A limiter needs a positive interval and a positive burst. */
  method NewLocalTokenBucket(config: Config) returns (r: Result<LocalBucket>)
    ensures r.Ok? <==> ValidConfig(config)
    ensures r.Ok? ==> fresh(r.value) && r.value.Valid() && r.value.config == config && r.value.buckets == map[]
  {
    if config.rate <= 0 || config.burst <= 0 {
      return Err(InvalidArgument);
    }
    var bucket := new LocalBucket(config);
    return Ok(bucket);
  }

  // ----------------------------------------------------- the calls of one key

  /** The bucket after the first `n` calls, made at `times`. */
  function After(c: Config, times: seq<int>, n: nat): Option<Bucket>
    requires ValidConfig(c) && n <= |times|
  {
    if n == 0 then None else Some(Take(c, After(c, times, n - 1), times[n - 1]))
  }

  predicate IsAllowed(c: Config, times: seq<int>, n: nat)
    requires ValidConfig(c) && n < |times|
  {
    Decide(c, After(c, times, n), times[n]).Allowed?
  }

  /** How many of the calls i .. n-1 were allowed. */
  function AllowedIn(c: Config, times: seq<int>, i: nat, n: nat): nat
    requires ValidConfig(c) && i <= n <= |times|
  {
    if i == n then 0 else AllowedIn(c, times, i, n - 1) + if IsAllowed(c, times, n - 1) then 1 else 0
  }

  /** The clock behind `time.Now` does not go back. */
  predicate Monotone(times: seq<int>) {
    forall i, j :: 0 <= i <= j < |times| ==> times[i] <= times[j]
  }

  /** What the window from call `i` up to call `n` leaves: the burst, plus what accrued, less what was allowed. */
  function Room(c: Config, times: seq<int>, i: nat, n: nat): real
    requires ValidConfig(c) && i <= n < |times|
  {
    c.burst as real + Accrued(c, times[n] - times[i]) - AllowedIn(c, times, i, n) as real
  }

  lemma AccruedAdds(c: Config, a: int, b: int)
    requires ValidConfig(c)
    ensures Accrued(c, a + b) == Accrued(c, a) + Accrued(c, b)
    ensures a >= 0 ==> Accrued(c, a) >= 0.0
  {
  }

  lemma RoomSteps(c: Config, times: seq<int>, i: nat, n: nat)
    requires ValidConfig(c) && i <= n && n + 1 < |times|
    ensures Room(c, times, i, n + 1) ==
              Room(c, times, i, n) - (if IsAllowed(c, times, n) then 1.0 else 0.0) + Accrued(c, times[n + 1] - times[n])
  {
    AccruedAdds(c, times[n] - times[i], times[n + 1] - times[n]);
  }

  /** The level of call n + 1 from that of call n. */
  lemma LevelSteps(c: Config, times: seq<int>, n: nat)
    requires ValidConfig(c) && Monotone(times) && n + 1 < |times|
    requires Level(c, After(c, times, n), times[n]) <= c.burst as real
    requires n > 0 ==> After(c, times, n).value.last == times[n - 1]
    ensures After(c, times, n + 1).value.last == times[n]
    ensures Level(c, After(c, times, n + 1), times[n + 1]) ==
              Lesser(c.burst as real,
                  Level(c, After(c, times, n), times[n]) - (if IsAllowed(c, times, n) then 1.0 else 0.0)
                  + Accrued(c, times[n + 1] - times[n]))
  {
    assert times[n] <= times[n + 1];
    assert n > 0 ==> times[n - 1] <= times[n];
    AccruedAdds(c, times[n + 1] - times[n], 0);
  }

  /** The level available to call `n`. */
  function LevelAt(c: Config, times: seq<int>, n: nat): real
    requires ValidConfig(c) && n < |times|
  {
    Level(c, After(c, times, n), times[n])
  }

  /** The level never exceeds the burst, and the bucket's clock is that of the last call. */
  lemma {:induction false} LevelWithinBurst(c: Config, times: seq<int>, n: nat)
    requires ValidConfig(c) && Monotone(times) && n < |times|
    ensures LevelAt(c, times, n) <= c.burst as real
    ensures n > 0 ==> After(c, times, n).value.last == times[n - 1]
  {
    if n > 0 {
      LevelWithinBurst(c, times, n - 1);
      LevelSteps(c, times, n - 1);
    }
  }

  lemma RoomStaysAbove(c: Config, times: seq<int>, i: nat, n: nat)
    requires ValidConfig(c) && Monotone(times) && i <= n && n + 1 < |times|
    ensures LevelAt(c, times, n) <= Room(c, times, i, n) ==> LevelAt(c, times, n + 1) <= Room(c, times, i, n + 1)
    ensures LevelAt(c, times, n) == Room(c, times, i, n) && LevelAt(c, times, n + 1) < c.burst as real ==>
              LevelAt(c, times, n + 1) == Room(c, times, i, n + 1)
  {
    LevelWithinBurst(c, times, n);
    LevelSteps(c, times, n);
    RoomSteps(c, times, i, n);
  }

  lemma RoomHere(c: Config, times: seq<int>, n: nat)
    requires ValidConfig(c) && n < |times|
    ensures Room(c, times, n, n) == c.burst as real
  {
  }

  /** The level is at most the room of every window ending here. */
  lemma {:induction false} LevelWithinRoom(c: Config, times: seq<int>, i: nat, n: nat)
    requires ValidConfig(c) && Monotone(times) && i <= n < |times|
    ensures LevelAt(c, times, n) <= Room(c, times, i, n)
    decreases n
  {
    if i == n {
      LevelWithinBurst(c, times, n);
      RoomHere(c, times, n);
    } else {
      LevelWithinRoom(c, times, i, n - 1);
      RoomStaysAbove(c, times, i, n - 1);
    }
  }

  /** Some window ending here attains it. */
  lemma {:induction false} TightestRoom(c: Config, times: seq<int>, n: nat) returns (i: nat)
    requires ValidConfig(c) && Monotone(times) && n < |times|
    ensures i <= n && LevelAt(c, times, n) == Room(c, times, i, n)
  {
    LevelWithinBurst(c, times, n);
    RoomHere(c, times, n);
    if n == 0 || LevelAt(c, times, n) == c.burst as real {
      i := n;
    } else {
      i := TightestRoom(c, times, n - 1);
      RoomStaysAbove(c, times, i, n - 1);
    }
  }

  /**
   The bucket is tight in both directions: a call is allowed exactly when, for every earlier call, one
   more allowed call since then keeps within the burst plus what accrued since then.
   */
  lemma AllowedIff(c: Config, times: seq<int>, n: nat)
    requires ValidConfig(c) && Monotone(times) && n < |times|
    ensures IsAllowed(c, times, n) <==>
              forall i: nat :: i <= n ==>
                (AllowedIn(c, times, i, n) + 1) as real <= c.burst as real + Accrued(c, times[n] - times[i])
  {
    if IsAllowed(c, times, n) {
      forall i: nat | i <= n
        ensures (AllowedIn(c, times, i, n) + 1) as real <= c.burst as real + Accrued(c, times[n] - times[i])
      {
        LevelWithinRoom(c, times, i, n);
      }
    } else {
      var tightest := TightestRoom(c, times, n);
      assert Room(c, times, tightest, n) < 1.0;
    }
  }

  /** No window of calls is allowed more than the burst plus what accrues between its first and last call. */
  lemma {:induction false} WindowBound(c: Config, times: seq<int>, i: nat, j: nat)
    requires ValidConfig(c) && Monotone(times) && i <= j < |times|
    ensures AllowedIn(c, times, i, j + 1) as real <= c.burst as real + Accrued(c, times[j] - times[i])
    decreases j
  {
    if IsAllowed(c, times, j) {
      AllowedIff(c, times, j);
    } else if i < j {
      WindowBound(c, times, i, j - 1);
      AccruedAdds(c, times[j - 1] - times[i], times[j] - times[j - 1]);
    } else {
      AccruedAdds(c, 0, 0);
    }
  }

  /** Up to `burst` calls are never refused, whatever their timing. */
  lemma {:induction false} BurstIsAllowed(c: Config, times: seq<int>, n: nat)
    requires ValidConfig(c) && Monotone(times) && n < |times| && n < c.burst
    ensures IsAllowed(c, times, n)
  {
    AllowedIff(c, times, n);
    forall i: nat | i <= n
      ensures (AllowedIn(c, times, i, n) + 1) as real <= c.burst as real + Accrued(c, times[n] - times[i])
    {
      AtMostAll(c, times, i, n);
      AccruedAdds(c, times[n] - times[i], 0);
    }
  }

  lemma {:induction false} AtMostAll(c: Config, times: seq<int>, i: nat, n: nat)
    requires ValidConfig(c) && i <= n <= |times|
    ensures AllowedIn(c, times, i, n) <= n - i
    decreases n
  {
    if i < n {
      AtMostAll(c, times, i, n - 1);
    }
  }

  // -------------------------------------------------------------- retry after

  /**
   Whatever value the level has been rounded to: after a denial, a lone call that waits the returned
   time and one nanosecond more is admitted.
   */
  lemma WaitingIsEnough(c: Config, b: Option<Bucket>, now: int, later: int)
    requires ValidConfig(c) && Decide(c, b, now).Denied? && (b.Some? ==> b.value.last <= now)
    requires later > now + Decide(c, b, now).retryAfter
    ensures Decide(c, Some(Take(c, b, now)), later).Allowed?
  {
    var level := Level(c, b, now);
    AdmittedAfter(c, Take(c, b, now), later);
    assert (1.0 - level) * c.rate as real <= ((1.0 - level) * c.rate as real).Floor as real + 1.0;
  }

  lemma AdmittedAfter(c: Config, b: Bucket, later: int)
    requires ValidConfig(c) && b.tokens < 1.0 && b.last <= later
    ensures Decide(c, Some(b), later).Allowed? <==> (later - b.last) as real >= (1.0 - b.tokens) * c.rate as real
  {
    var elapsed := (later - b.last) as real;
    var rate := c.rate as real;
    Quotient(elapsed, rate, 1.0 - b.tokens);
    assert Accrued(c, later - b.last) == elapsed / rate;
  }

  lemma Quotient(x: real, r: real, d: real)
    requires r > 0.0
    ensures x / r >= d <==> x >= d * r
  {
    var q := x / r;
    assert q * r == x;
    if q >= d {
      Product(q - d, r);
    } else {
      Product(d - q, r);
    }
    Distributes(q, d, r);
    Distributes(d, q, r);
  }

  lemma Product(x: real, y: real)
    requires x >= 0.0 && y > 0.0
    ensures x * y >= 0.0 && (x > 0.0 ==> x * y > 0.0)
  {
  }

  lemma Distributes(x: real, y: real, r: real)
    ensures (x - y) * r == x * r - y * r && (x + y) * r == x * r + y * r
  {
  }

  /** Held exactly, a level is some whole tokens and what accrues over some whole nanoseconds. */
  lemma LevelInTicks(c: Config, times: seq<int>, n: nat) returns (spare: int, elapsed: int)
    requires ValidConfig(c) && Monotone(times) && n < |times|
    ensures LevelAt(c, times, n) == spare as real + Accrued(c, elapsed)
  {
    var tightest := TightestRoom(c, times, n);
    spare, elapsed := c.burst - AllowedIn(c, times, tightest, n), times[n] - times[tightest];
  }

  lemma InTicks(c: Config, level: real, spare: int, elapsed: int) returns (ticks: int)
    requires ValidConfig(c) && level == spare as real + Accrued(c, elapsed)
    ensures level * c.rate as real == ticks as real
  {
    var rate, a := c.rate as real, Accrued(c, elapsed);
    ticks := spare * c.rate + elapsed;
    assert a * rate == elapsed as real;
    Distributes(spare as real, a, rate);
    assert spare as real * rate == (spare * c.rate) as real;
  }

  /** A wait of a whole number of nanoseconds is returned as it is. */
  lemma WaitOfTicks(c: Config, level: real, ticks: int)
    requires ValidConfig(c) && level < 1.0 && level * c.rate as real == ticks as real
    ensures Wait(c, level) == c.rate - ticks > 0 && (1.0 - level) * c.rate as real == (c.rate - ticks) as real
  {
    Distributes(1.0, level, c.rate as real);
    Product(1.0 - level, c.rate as real);
  }

  lemma ExactWait(c: Config, b: Bucket, spare: int, elapsed: int, later: int)
    requires ValidConfig(c) && b.tokens < 1.0 && b.last <= later && b.tokens == spare as real + Accrued(c, elapsed)
    ensures Decide(c, Some(b), later).Allowed? <==> later >= b.last + Wait(c, b.tokens)
  {
    var ticks := InTicks(c, b.tokens, spare, elapsed);
    WaitOfTicks(c, b.tokens, ticks);
    AdmittedAfter(c, b, later);
  }

  /** With exact arithmetic the returned time is exact: with no other call, waiting it is enough and nothing less is. */
  lemma RetryAfterIsExact(c: Config, times: seq<int>, n: nat, later: int)
    requires ValidConfig(c) && Monotone(times) && n < |times| && later >= times[n]
    requires !IsAllowed(c, times, n)
    ensures var retryAfter := Decide(c, After(c, times, n), times[n]).retryAfter;
            Decide(c, After(c, times, n + 1), later).Allowed? <==> later >= times[n] + retryAfter
  {
    var spare, elapsed := LevelInTicks(c, times, n);
    DeniedBucket(c, times, n);
    ExactWait(c, Bucket(LevelAt(c, times, n), times[n]), spare, elapsed, later);
  }

  lemma DeniedBucket(c: Config, times: seq<int>, n: nat)
    requires ValidConfig(c) && Monotone(times) && n < |times| && !IsAllowed(c, times, n)
    ensures After(c, times, n + 1) == Some(Bucket(LevelAt(c, times, n), times[n]))
  {
    LevelWithinBurst(c, times, n);
    assert n > 0 ==> times[n - 1] <= times[n];
  }

  // --------------------------------------------------------------------- keys

  /**
   Two tenants have agents that share a bucket exactly when one tenant id, followed by a bar, is a
   prefix of the other followed by a bar.
   */
  lemma SharedBucketIff(s: string, t: string)
    ensures (exists a, b :: BucketId(Key(s, a, "")) == BucketId(Key(t, b, ""))) <==>
              s + "|" <= t + "|" || t + "|" <= s + "|"
  {
    JoinedIff(s, t, '|');
    if a, b :| BucketId(Key(s, a, "")) == BucketId(Key(t, b, "")) {
      assert Join(s, '|', a) == Join(t, '|', b);
    }
    if a, b :| Join(s, '|', a) == Join(t, '|', b) {
      assert BucketId(Key(s, a, "")) == BucketId(Key(t, b, ""));
    }
  }

  /** So tenants whose ids hold no bar never share one across tenants or agents. */
  lemma SeparateBuckets(a: Key, b: Key)
    requires '|' !in a.tenantId && '|' !in b.tenantId
    ensures BucketId(a) == BucketId(b) <==> a.tenantId == b.tenantId && a.agentId == b.agentId
  {
    JoinedApart(a.tenantId, a.agentId, b.tenantId, b.agentId, '|');
    assert BucketId(a) == Join(a.tenantId, '|', a.agentId) && BucketId(b) == Join(b.tenantId, '|', b.agentId);
  }

  /** But every tenant does with any tenant whose id continues its own after a bar. */
  lemma SharedBucket(s: string, rest: string) returns (a: string, b: string)
    ensures s != s + "|" + rest && BucketId(Key(s, a, "")) == BucketId(Key(s + "|" + rest, b, ""))
  {
    var t := s + "|" + rest;
    assert t + "|" == (s + "|") + (rest + "|");
    SharedBucketIff(s, t);
    a, b :| BucketId(Key(s, a, "")) == BucketId(Key(t, b, ""));
    assert |t| > |s|;
  }
}

/**
 Exactly when the deadline of a lease fails as its fencing token, whatever the clocks of the workers
 read: which steps hand an event back to a worker that was superseded.
 */
module OutboxOwnership {
  import opened Common
  import opened Backoff
  import opened Outbox
  import opened OutboxProtocol

  /** Claim `j` was superseded by a later claim on its event, and yet its token is the stored deadline. */
  predicate Forges(s: State, j: nat)
    requires j < |s.claims|
  {
    s.claims[j].open && !Latest(s.claims, j) && Owns(s.tables.rows, s.claims[j].event.key, s.claims[j].event.until)
  }

  /** No superseded open claim owns its event: what a fencing token is for. */
  predicate NobodyForges(s: State) {
    forall j :: 0 <= j < |s.claims| ==> !Forges(s, j)
  }

  lemma FencedMeansNobodyForges(s: State)
    requires Fenced(s)
    ensures NobodyForges(s)
  {
    forall j | 0 <= j < |s.claims| ensures !Forges(s, j) {
      if s.claims[j].open && Owns(s.tables.rows, s.claims[j].event.key, s.claims[j].event.until) {
        OwnerIsLatest(s, j);
      }
    }
  }

  /** Owning is what lets a superseded worker write: the write of a failure succeeds, and any other changes nothing. */
  lemma ForgesIffWrites(s: State, j: nat, o: Observed, now: int)
    requires j < |s.claims| && s.claims[j].open && !Latest(s.claims, j)
    ensures Forges(s, j) <==> MarkFailureTx(s.tables, s.claims[j].event, now).1 == Done
    ensures Forges(s, j) <==> MarkPublishedTx(s.tables, s.claims[j].event, now).1 == Done
    ensures !Forges(s, j) ==>
              && Handle(s.tables, s.claims[j].event, o, now).0 == s.tables
              && MarkFailureTx(s.tables, s.claims[j].event, now).0 == s.tables
  {
    HandleEffect(s.tables, s.claims[j].event, o, now);
  }

  // ----------------------------------------------------------- handing it over

  /** The deadline a failure writes. */
  function FailureDeadline(s: State, i: nat, now: int): int
    requires i < |s.claims|
  {
    now + RetryDelay(s.claims[i].event.attempts + 1)
  }

  /** Claim `j` is another open claim on the event of claim `i`, and its deadline is what a failure of `i` writes. */
  predicate OlderDeadline(s: State, i: nat, j: nat, now: int)
    requires i < |s.claims| && j < |s.claims|
  {
    && s.claims[j].open && j != i && s.claims[j].event.key == s.claims[i].event.key
    && s.claims[j].event.until == FailureDeadline(s, i, now)
  }

  /** Claim `j` is open on a picked event, and its deadline is what the new claim writes. */
  predicate ClaimedDeadline(s: State, now: int, picked: seq<Key>, j: nat)
    requires j < |s.claims|
  {
    var c := s.claims[j];
    && c.open && c.event.key in picked && c.event.key in s.tables.rows
    && c.event.until == ClaimDeadline(s.tables.rows[c.event.key], now)
  }

  /** An owner's failure, or a claim, writes the deadline of another open claim on the event. */
  predicate HandsOver(s: State, step: Step)
    requires Enabled(s, step)
  {
    match step
    case FailClaim(i, now) =>
      && Owns(s.tables.rows, s.claims[i].event.key, s.claims[i].event.until)
      && exists j :: 0 <= j < |s.claims| && OlderDeadline(s, i, j, now)
    case ClaimBatch(now, picked) => exists j :: 0 <= j < |s.claims| && ClaimedDeadline(s, now, picked, j)
    case _ => false
  }

  lemma SameLatest(before: seq<Claim>, after: seq<Claim>, j: nat)
    requires OnlyCloses(before, after) && j < |before|
    ensures Latest(after, j) <==> Latest(before, j)
  {
    forall k | j < k < |before| ensures after[k].event.key != after[j].event.key <==> before[k].event.key != before[j].event.key {
    }
  }

  /** What an owner's failure leaves: its claim closed and its row due at the new deadline. */
  lemma FailureEffect(s: State, i: nat, now: int)
    requires Enabled(s, FailClaim(i, now)) && Owns(s.tables.rows, s.claims[i].event.key, s.claims[i].event.until)
    ensures var t, e := Apply(s, FailClaim(i, now)), s.claims[i].event;
            && t.claims == Closed(s.claims, i)
            && t.tables.rows == s.tables.rows[e.key := t.tables.rows[e.key]]
            && t.tables.rows[e.key].publishedAt.None? && t.tables.rows[e.key].claimedUntil == Some(FailureDeadline(s, i, now))
  {
  }

  /** An owner's failure hands the event to an older open claim exactly when it writes that claim's deadline. */
  lemma FailureForgesIff(s: State, i: nat, now: int, j: nat)
    requires NobodyForges(s) && Enabled(s, FailClaim(i, now)) && j < |s.claims|
    requires Owns(s.tables.rows, s.claims[i].event.key, s.claims[i].event.until)
    ensures |Apply(s, FailClaim(i, now)).claims| == |s.claims|
    ensures Forges(Apply(s, FailClaim(i, now)), j) <==> OlderDeadline(s, i, j, now)
  {
    FailureEffect(s, i, now);
    SameLatest(s.claims, Closed(s.claims, i), j);
    assert !Forges(s, i) && !Forges(s, j);
    if s.claims[j].open && j != i && s.claims[j].event.key == s.claims[i].event.key {
      assert Latest(s.claims, i) && j < i && !Latest(s.claims, j);
    }
  }

  lemma PickedIsSuperseded(s: State, now: int, picked: seq<Key>, j: nat)
    requires Enabled(s, ClaimBatch(now, picked)) && j < |s.claims|
    ensures var claims := Apply(s, ClaimBatch(now, picked)).claims;
            && |claims| == |s.claims| + |picked| && claims[j] == s.claims[j]
            && (Latest(claims, j) <==> Latest(s.claims, j) && s.claims[j].event.key !in picked)
  {
    var claims, n := Apply(s, ClaimBatch(now, picked)).claims, |s.claims|;
    assert forall i :: 0 <= i < |picked| ==> claims[n + i].event.key == picked[i];
    assert forall i :: 0 <= i < n ==> claims[i] == s.claims[i];
  }

  lemma NewIsLatest(s: State, now: int, picked: seq<Key>, i: nat)
    requires Enabled(s, ClaimBatch(now, picked)) && i < |picked|
    ensures var claims := Apply(s, ClaimBatch(now, picked)).claims;
            |s.claims| + i < |claims| && Latest(claims, |s.claims| + i)
  {
    var claims, n := Apply(s, ClaimBatch(now, picked)).claims, |s.claims|;
    forall k | n + i < k < |claims| ensures claims[k].event.key != claims[n + i].event.key {
      assert claims[k].event.key == picked[k - n];
    }
  }

  /** A claim hands an event to an older open claim exactly when it writes that claim's deadline. */
  lemma ClaimForgesIff(s: State, now: int, picked: seq<Key>, j: nat)
    requires NobodyForges(s) && Enabled(s, ClaimBatch(now, picked)) && j < |s.claims| + |picked|
    ensures |Apply(s, ClaimBatch(now, picked)).claims| == |s.claims| + |picked|
    ensures Forges(Apply(s, ClaimBatch(now, picked)), j) <==> j < |s.claims| && ClaimedDeadline(s, now, picked, j)
  {
    if j < |s.claims| {
      PickedIsSuperseded(s, now, picked, j);
      assert !Forges(s, j);
    } else {
      NewIsLatest(s, now, picked, j - |s.claims|);
    }
  }

  lemma OthersForgeNothing(s: State, step: Step)
    requires NobodyForges(s) && Enabled(s, step) && !step.ClaimBatch?
    requires step.FailClaim? ==> !Owns(s.tables.rows, s.claims[step.i].event.key, s.claims[step.i].event.until)
    ensures NobodyForges(Apply(s, step))
  {
    var t := Apply(s, step);
    if step.HandleClaim? {
      HandleEffect(s.tables, s.claims[step.i].event, step.observed, step.now);
    }
    forall j | 0 <= j < |t.claims| ensures !Forges(t, j) {
      SameLatest(s.claims, t.claims, j);
      assert !Forges(s, j);
    }
  }

  /**
   The exact condition for the token itself, whatever the clock reads: a step lets a superseded worker
   own its event if and only if it is an owner's failure or a claim that writes the deadline of another
   open claim on the event.
   */
  lemma StepForgesIff(s: State, step: Step)
    requires NobodyForges(s) && Enabled(s, step)
    ensures NobodyForges(Apply(s, step)) <==> !HandsOver(s, step)
  {
    var t := Apply(s, step);
    if step.ClaimBatch? {
      forall j | 0 <= j < |t.claims| ensures Forges(t, j) <==> j < |s.claims| && ClaimedDeadline(s, step.now, step.picked, j) {
        ClaimForgesIff(s, step.now, step.picked, j);
      }
      assert |t.claims| >= |s.claims|;
    } else if step.FailClaim? && Owns(s.tables.rows, s.claims[step.i].event.key, s.claims[step.i].event.until) {
      assert |t.claims| == |s.claims|;
      forall j | 0 <= j < |s.claims| ensures Forges(t, j) <==> OlderDeadline(s, step.i, j, step.now) {
        FailureForgesIff(s, step.i, step.now, j);
      }
    } else {
      OthersForgeNothing(s, step);
    }
  }

  /** From a fenced state a claim never does; only a failure can. */
  lemma FencedClaimsHandNothingOver(s: State, now: int, picked: seq<Key>)
    requires Fenced(s) && Enabled(s, ClaimBatch(now, picked))
    ensures !HandsOver(s, ClaimBatch(now, picked))
  {
    forall j | 0 <= j < |s.claims| ensures !ClaimedDeadline(s, now, picked, j) {
      if s.claims[j].event.key in picked {
        var i :| 0 <= i < |picked| && picked[i] == s.claims[j].event.key;
        ClaimOrdered(s, now, picked, j, i);
      }
    }
  }

  // ---------------------------------------------------------------- whole runs

  ghost predicate NobodyEverForges(states: seq<State>, n: nat)
    requires n < |states|
  {
    forall i :: 0 <= i <= n ==> NobodyForges(states[i])
  }

  ghost predicate NothingHandedOver(states: seq<State>, steps: seq<Step>, n: nat)
    requires IsRun(states, steps) && n < |states|
  {
    forall i :: 0 <= i < n ==> !HandsOver(states[i], steps[i])
  }

  /** Over any run, on any clocks: no superseded worker ever owns its event if and only if no step hands one over. */
  lemma {:induction false} RunForgesIff(states: seq<State>, steps: seq<Step>, n: nat)
    requires IsRun(states, steps) && n < |states|
    ensures NobodyEverForges(states, n) <==> NothingHandedOver(states, steps, n)
  {
    if n > 0 {
      RunForgesIff(states, steps, n - 1);
      assert NobodyEverForges(states, n) <==> NobodyEverForges(states, n - 1) && NobodyForges(states[n]);
      assert NothingHandedOver(states, steps, n) <==> NothingHandedOver(states, steps, n - 1) && !HandsOver(states[n - 1], steps[n - 1]);
      if NobodyForges(states[n - 1]) {
        StepForgesIff(states[n - 1], steps[n - 1]);
      }
    }
  }

  /** A run on a good clock hands nothing over. */
  lemma ClockedRunHandsNothingOver(states: seq<State>, steps: seq<Step>, n: nat)
    requires IsClockedRun(states, steps) && n < |states|
    ensures NothingHandedOver(states, steps, n)
  {
    forall i | 0 <= i <= n ensures NobodyForges(states[i]) {
      RunIsFenced(states, steps, i);
      FencedMeansNobodyForges(states[i]);
    }
    RunForgesIff(states, steps, n);
  }

  // ------------------------------------------------------ a claim hands it over

  /** The second worker fails on a clock far back, which hands nothing over; the next claim then does. */
  function EarlyClaimSteps(): seq<Step> {
    [Append(EVENT_KEY, Row("task.published", Malformed, 0, 0, 0, None, None), map[]),
     ClaimBatch(100 * SECOND, [EVENT_KEY]),
     ClaimBatch(130 * SECOND, [EVENT_KEY]),
     FailClaim(1, 60 * SECOND),
     ClaimBatch(70 * SECOND, [EVENT_KEY])]
  }

  function Claimed(attempts: nat, at: int, until: int, open: bool): Claim {
    Claim(Event(EVENT_KEY, "task.published", Malformed, attempts, until), at, open)
  }

  function Stored(attempts: nat, until: int): Tables {
    Tables(map[EVENT_KEY := Row("task.published", Malformed, 0, 0, attempts, Some(until), None)], map[], map[])
  }

  /** After the failure the first worker's claim is still open, and nobody owns the event of another. */
  function AfterEarlyFailure(): State {
    State(Stored(1, 62 * SECOND), [Claimed(0, 100 * SECOND, 130 * SECOND, true), Claimed(0, 130 * SECOND, 160 * SECOND, false)], {})
  }

  lemma ReachEarlyFailure() returns (states: seq<State>)
    ensures IsRun(states, EarlyClaimSteps()[..4]) && |states| == 5 && states[4] == AfterEarlyFailure()
    ensures NobodyEverForges(states, 4)
  {
    var steps := EarlyClaimSteps();
    var s0 := State(Tables(map[], map[], map[]), [], {});
    var s1 := Apply(s0, steps[0]);
    var s2 := State(Stored(0, 130 * SECOND), [Claimed(0, 100 * SECOND, 130 * SECOND, true)], {});
    assert Apply(s1, steps[1]) == s2;
    var s3 := State(Stored(0, 160 * SECOND), s2.claims + [Claimed(0, 130 * SECOND, 160 * SECOND, true)], {});
    assert Apply(s2, steps[2]) == s3;
    assert RetryDelay(1) == 2 * SECOND;
    assert Apply(s3, steps[3]) == AfterEarlyFailure();
    states := [s0, s1, s2, s3, AfterEarlyFailure()];
  }

  /** The next claim then lets the first worker publish it. */
  lemma ClaimsHandOverToo() returns (states: seq<State>)
    ensures IsRun(states, EarlyClaimSteps()) && |states| == 6
    ensures NobodyEverForges(states, 4) && HandsOver(states[4], EarlyClaimSteps()[4])
    ensures |states[5].claims| == 3 && Forges(states[5], 0)
    ensures MarkPublishedTx(states[5].tables, states[5].claims[0].event, 75 * SECOND).1 == Done
  {
    states := ReachEarlyFailure();
    var s4, step := AfterEarlyFailure(), EarlyClaimSteps()[4];
    assert ClaimDuration(1) == 60 * SECOND;
    var s5 := State(Stored(1, 130 * SECOND), s4.claims + [Claimed(1, 70 * SECOND, 130 * SECOND, true)], {});
    assert Apply(s4, step) == s5;
    states := states + [s5];
    assert ClaimedDeadline(s4, 70 * SECOND, [EVENT_KEY], 0);
    assert s5.claims[2].event.key == s5.claims[0].event.key;
  }
}

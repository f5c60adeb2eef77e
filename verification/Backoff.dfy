/**
 The capped exponential that paces outbox retries and bounds a claim.

 Durations are signed 64-bit nanosecond counts, so every arithmetic step of the loop is
 checked against overflow by the verifier.
 */
module Backoff {
  import opened Common

  newtype Duration = x: int | -0x8000_0000_0000_0000 <= x <= 0x7FFF_FFFF_FFFF_FFFF

  const SECOND: nat := 1_000_000_000
  const CAP: nat := 300 * SECOND
  const CLAIM_BASE: nat := 30 * SECOND

  /** base * 2^e */
  function Scaled(base: nat, e: nat): nat {
    if e == 0 then base else 2 * Scaled(base, e - 1)
  }

  /** The value after `n` more rounds of the doubling loop, starting from `d`. */
  function CappedFrom(d: nat, n: nat, maximum: nat): nat
    decreases n
  {
    if n == 0 then d
    else if d >= maximum / 2 then maximum
    else CappedFrom(2 * d, n - 1, maximum)
  }

  function Clamp(exponent: int): nat {
    if exponent < 0 then 0 else exponent
  }

  function CappedExponential(base: nat, exponent: int, maximum: nat): nat {
    CappedFrom(base, Clamp(exponent), maximum)
  }

  function RetryDelay(attempts: int): nat {
    CappedExponential(SECOND, attempts, CAP)
  }

  function ClaimDuration(attempts: int): nat {
    CappedExponential(CLAIM_BASE, attempts, CAP)
  }

  /** The loop as it runs on machine durations: no doubling can overflow. */
  method ComputeCappedExponential(base: Duration, exponent: int, maximum: Duration) returns (d: Duration)
    requires 0 <= base && 0 <= maximum
    ensures d as int == CappedExponential(base as int, exponent, maximum as int)
  {
    var e := exponent;
    if e < 0 {
      e := 0;
    }
    d := base;
    for i := 0 to e
      invariant 0 <= d
      invariant CappedFrom(d as int, e - i, maximum as int) == CappedExponential(base as int, exponent, maximum as int)
    {
      if d >= maximum / 2 {
        return maximum;
      }
      d := d * 2;
    }
  }

  lemma {:induction false} ScaledShift(base: nat, e: nat)
    ensures Scaled(2 * base, e) == 2 * Scaled(base, e)
  {
    if e > 0 {
      ScaledShift(base, e - 1);
    }
  }

  lemma {:induction false} ScaledMonotone(base: nat, e: nat, f: nat)
    requires e <= f
    ensures base <= Scaled(base, e) <= Scaled(base, f)
    decreases f
  {
    if e < f {
      ScaledMonotone(base, e, f - 1);
    } else if e > 0 {
      ScaledMonotone(base, e - 1, f - 1);
    }
  }

  /**
   The loop computes min(base * 2^e, maximum) except in exactly two cases: no round runs and the
   base is already above the cap, or the scaled value lands one below an (odd) cap.
   */
  lemma {:induction false} CappedIsMin(base: nat, e: nat, maximum: nat)
    ensures CappedFrom(base, e, maximum) == Min(Scaled(base, e), maximum)
            <==> !(e == 0 && base > maximum) && !(e > 0 && Scaled(base, e) + 1 == maximum)
    decreases e
  {
    if e > 0 {
      ScaledShift(base, e - 1);
      ScaledMonotone(base, 0, e - 1);
      if base < maximum / 2 {
        CappedIsMin(2 * base, e - 1, maximum);
      } else {
        assert Scaled(base, e) == 2 * Scaled(base, e - 1);
      }
    }
  }

  /** With an even cap not below the base, as both callers have, it is the minimum and it is monotone. */
  lemma CappedMonotone(base: nat, e: int, f: int, maximum: nat)
    requires e <= f && maximum % 2 == 0 && base <= maximum
    ensures CappedExponential(base, e, maximum) == Min(Scaled(base, Clamp(e)), maximum)
    ensures base <= CappedExponential(base, e, maximum) <= CappedExponential(base, f, maximum) <= maximum
  {
    CappedEvenIsMin(base, Clamp(e), maximum);
    CappedEvenIsMin(base, Clamp(f), maximum);
    ScaledMonotone(base, Clamp(e), Clamp(f));
  }

  lemma CappedEvenIsMin(base: nat, e: nat, maximum: nat)
    requires maximum % 2 == 0 && base <= maximum
    ensures CappedFrom(base, e, maximum) == Min(Scaled(base, e), maximum)
  {
    CappedIsMin(base, e, maximum);
    assert e > 0 ==> Scaled(base, e) == 2 * Scaled(base, e - 1);
  }

  /** What the outbox protocol rests on. */
  lemma DurationsGrow(a: int, b: int)
    requires a <= b
    ensures 0 < SECOND <= RetryDelay(a) <= RetryDelay(b) <= CAP
    ensures 0 < CLAIM_BASE <= ClaimDuration(a) <= ClaimDuration(b) <= CAP
  {
    CappedMonotone(SECOND, a, b, CAP);
    CappedMonotone(CLAIM_BASE, a, b, CAP);
  }
}

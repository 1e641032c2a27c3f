/** The retry delay of the engine (internal/engine/engine.go, `backoff`). */
module Backoff {
  /** A Go `time.Duration`: a signed 64-bit count of nanoseconds. Arithmetic on it must stay in range. */
  newtype Duration = x: int | -0x8000_0000_0000_0000 <= x < 0x8000_0000_0000_0000

  function Pow2(n: nat): (p: int)
    ensures p >= 1
  {
    if n == 0 then 1 else 2 * Pow2(n - 1)
  }

  /** The delay before attempt `attempt + 1` if it doubled without a cap. */
  function Raw(initial: int, attempt: int): int {
    initial * Pow2(if attempt <= 1 then 0 else attempt - 1)
  }

  function Min(a: int, b: int): int {
    if a < b then a else b
  }

  /** The one case in which the loop returns the cap although the doubled delay is still one below it. */
  predicate OneBelowOddCap(initial: int, max: int, attempt: int) {
    attempt >= 2 && max % 2 == 1 && Raw(initial, attempt - 1) == max / 2
  }

  function Delay(initial: int, max: int, attempt: int): int {
    Min(max, Raw(initial, attempt)) + if OneBelowOddCap(initial, max, attempt) then 1 else 0
  }

  lemma RawDoubles(initial: int, attempt: int)
    requires attempt >= 1
    ensures Raw(initial, attempt + 1) == 2 * Raw(initial, attempt)
  {
    calc {
      Raw(initial, attempt + 1);
      initial * (2 * Pow2(attempt - 1));
      2 * (initial * Pow2(attempt - 1));
    }
  }

  lemma {:induction false} RawGrows(initial: int, a: int, b: int)
    requires 0 <= initial && a <= b
    ensures 0 <= Raw(initial, a) <= Raw(initial, b)
    ensures 1 <= a < b ==> 2 * Raw(initial, a) <= Raw(initial, b)
    decreases b - a
  {
    assert Raw(initial, a) >= 0 by {
      assert forall p: int :: p >= 1 ==> initial * p >= 0;
    }
    if a < b && b >= 2 {
      RawGrows(initial, a, b - 1);
      RawDoubles(initial, b - 1);
    }
  }

  /** The loop computes min(max, initial * 2^(attempt-1)), plus one in exactly the case `OneBelowOddCap`,
      for every attempt number; every doubling it performs fits in 64 bits. */
  method ComputeBackoff(initial: Duration, max: Duration, attempt: int) returns (delay: Duration)
    requires 0 <= initial && 0 <= max
    ensures delay as int == Delay(initial as int, max as int, attempt)
    ensures delay as int == Min(max as int, Raw(initial as int, attempt)) <==> !OneBelowOddCap(initial as int, max as int, attempt)
  {
    var backoff := initial;
    var i := 1;
    while i < attempt
      invariant i == 1 || 1 < i <= attempt
      invariant 0 <= backoff && backoff as int == Raw(initial as int, i)
      invariant i >= 2 ==> Raw(initial as int, i - 1) < (max / 2) as int
    {
      RawDoubles(initial as int, i);
      if backoff >= max / 2 {
        EarlyStop(initial as int, max as int, attempt, i);
        return max;
      }
      backoff := backoff * 2;
      i := i + 1;
    }
    if backoff > max {
      return max;
    }
    delay := backoff;
  }

  /** Leaving the loop in round `i` returns the right delay. */
  lemma EarlyStop(initial: int, max: int, attempt: int, i: int)
    requires 0 <= initial && 0 <= max && 1 <= i < attempt && max / 2 <= Raw(initial, i)
    ensures Delay(initial, max, attempt) == max
  {
    RawGrows(initial, i, attempt - 1);
    RawDoubles(initial, attempt - 1);
  }

  /** The delay never shrinks from one attempt to a later one, and never exceeds the cap. */
  lemma DelayIsMonotone(initial: int, max: int, a: int, b: int)
    requires 0 <= initial && 0 <= max && a <= b
    ensures Delay(initial, max, a) <= Delay(initial, max, b) <= max
  {
    RawGrows(initial, a, b);
    if a < b && OneBelowOddCap(initial, max, a) {
      RawGrows(initial, a - 1, b - 1);
      RawDoubles(initial, a - 1);
      RawDoubles(initial, b - 1);
    }
    if OneBelowOddCap(initial, max, b) {
      RawDoubles(initial, b - 1);
    }
  }

  /** An odd cap does exceed the formula: from 2 with cap 5, the second delay is 5 and not 4. */
  lemma OddCapExceedsFormula()
    ensures OneBelowOddCap(2, 5, 2) && Delay(2, 5, 2) == 5 && Min(5, Raw(2, 2)) == 4
  {
    assert Pow2(1) == 2 * Pow2(0);
  }
}

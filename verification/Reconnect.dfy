/** Bounded reconnect scheduling; times are milliseconds. */
module Reconnect {
  const MAX_DELAY: nat := 60_000
  const RESET_AFTER: nat := 60_000

  function Shl1(k: nat): (r: nat)
    ensures r >= 1
  {
    if k == 0 then 1 else 2 * Shl1(k - 1)
  }

  function Min(a: nat, b: nat): nat { if a < b then a else b }

  function CapMillis(attempt: nat): nat {
    Min(Shl1(Min(attempt, 6)), 60) * 1000
  }

  /** Full jitter in `[0, min(60 s, 2^attempt s)]`. */
  function FullJitter(attempt: nat, entropy: nat): (delay: nat)
    ensures delay <= CapMillis(attempt) <= MAX_DELAY
  {
    entropy % (CapMillis(attempt) + 1)
  }

  lemma {:induction false} Shl1Monotone(j: nat, k: nat)
    requires j <= k
    ensures Shl1(j) <= Shl1(k)
    decreases k - j
  {
    if j < k { Shl1Monotone(j, k - 1); }
  }

  /** Capping the exponent at 6 loses nothing. */
  lemma CapIsExponential(attempt: nat)
    ensures CapMillis(attempt) == Min(Shl1(attempt) * 1000, MAX_DELAY)
  {
    assert Shl1(3) == 8 && Shl1(6) == 64;
    if attempt > 6 { Shl1Monotone(6, attempt); }
    if attempt == 6 { assert CapMillis(attempt) == MAX_DELAY; }
    if attempt < 6 { Shl1Monotone(attempt, 5); }
  }

  /** The delays reachable are exactly `0..=min(60 s, 2^attempt s)`. */
  lemma JitterRange(attempt: nat, delay: nat)
    ensures (exists entropy: nat :: FullJitter(attempt, entropy) == delay)
            <==> delay <= Min(Shl1(attempt) * 1000, MAX_DELAY)
  {
    CapIsExponential(attempt);
    if delay <= CapMillis(attempt) {
      SmallModulo(delay, CapMillis(attempt) + 1);
      assert FullJitter(attempt, delay) == delay;
    }
  }

  lemma SmallModulo(a: nat, b: nat)
    requires a < b
    ensures a % b == a
  {
  }
}

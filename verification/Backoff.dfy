/** Retry delays: the saturating doubling loop and the jitter. Durations count nanoseconds. */
module Backoff {
  import opened Types

  /** A duration is at most 2^64 - 1 seconds and 999999999 nanoseconds. */
  const DURATION_MAX: nat := (U64_MAX + 1) * 1_000_000_000 - 1

  type Duration = d: nat | d <= DURATION_MAX

  datatype Jitter = NoJitter | Full

  datatype RetryConfig = RetryConfig(baseDelay: Duration, maxDelay: Duration, jitter: Jitter)

  function Pow2(n: nat): nat { if n == 0 then 1 else 2 * Pow2(n - 1) }

  function Min(a: nat, b: nat): nat { if a <= b then a else b }

  function SaturatingDouble(d: Duration): Duration { Min(2 * d, DURATION_MAX) }

  function Exponent(attempt: nat): nat { if attempt == 0 then 0 else Min(attempt - 1, 63) }

  function Scaled(b: nat, n: nat): nat { b * Pow2(n) }

  /** The delay without a loop and without saturation. */
  function IdealCap(c: RetryConfig, attempt: nat): Duration {
    Min(c.maxDelay, Scaled(c.baseDelay, Exponent(attempt)))
  }

  lemma Doubled(b: nat, n: nat)
    requires n > 0
    ensures Scaled(b, n) == 2 * Scaled(b, n - 1)
  {
  }

  lemma {:induction false} Grows(b: nat, i: nat, j: nat)
    requires i <= j
    ensures Scaled(b, i) <= Scaled(b, j)
    decreases j
  {
    if i < j {
      Grows(b, i, j - 1);
      Doubled(b, j);
    }
  }

  /** One round of the loop: a doubling that reaches the maximum would only grow further. */
  lemma Round(c: RetryConfig, i: nat, exp: nat)
    requires i < exp && Scaled(c.baseDelay, i) <= DURATION_MAX
    ensures var d := SaturatingDouble(Scaled(c.baseDelay, i));
            if d >= c.maxDelay then c.maxDelay <= Scaled(c.baseDelay, exp) else d == Scaled(c.baseDelay, i + 1)
  {
    hide Scaled;
    Doubled(c.baseDelay, i + 1);
    Grows(c.baseDelay, i + 1, exp);
  }

  /** `cap_for_attempt`: saturation and the early exit are invisible, for every configuration,
      validated or not. */
  method CapForAttempt(c: RetryConfig, attempt: nat) returns (cap: Duration)
    ensures cap == IdealCap(c, attempt)
  {
    assert Scaled(c.baseDelay, 0) == c.baseDelay;
    hide Scaled, SaturatingDouble, Exponent;
    var exp := Exponent(attempt);
    var backoff := c.baseDelay;
    for i := 0 to exp
      invariant backoff == Scaled(c.baseDelay, i) <= DURATION_MAX
    {
      Round(c, i, exp);
      backoff := SaturatingDouble(backoff);
      if backoff >= c.maxDelay {
        return c.maxDelay;
      }
    }
    return Min(backoff, c.maxDelay);
  }

  /** The first retry waits for the base delay, each further one twice as long as the one before, up
      to the maximum; from the 64th on nothing changes. */
  lemma CapDoubles(c: RetryConfig, attempt: nat)
    ensures IdealCap(c, 0) == IdealCap(c, 1)
    ensures IdealCap(c, 1) == if c.baseDelay <= c.maxDelay then c.baseDelay else c.maxDelay
    ensures 1 <= attempt < 64 ==>
              IdealCap(c, attempt + 1)
              == if 2 * IdealCap(c, attempt) <= c.maxDelay then 2 * IdealCap(c, attempt) else c.maxDelay
    ensures attempt >= 64 ==> IdealCap(c, attempt) == IdealCap(c, 64)
  {
    assert Scaled(c.baseDelay, 0) == c.baseDelay;
    if 1 <= attempt < 64 {
      hide Scaled;
      Doubled(c.baseDelay, attempt);
    }
  }

  /** Delays never shrink from one attempt to the next and never exceed the maximum. */
  lemma CapMonotone(c: RetryConfig, a: nat, b: nat)
    requires a <= b
    ensures IdealCap(c, a) <= IdealCap(c, b) <= c.maxDelay
  {
    Grows(c.baseDelay, Exponent(a), Exponent(b));
  }

  const U128_MAX: nat := 0xFFFF_FFFF_FFFF_FFFF_FFFF_FFFF_FFFF_FFFF

  /** Very long delays: the sample is stretched by a factor. The product never exceeds the cap, and so
      never leaves 128 bits. */
  lemma StretchedFits(sample: nat, cap: Duration)
    requires sample <= U64_MAX
    ensures sample * (cap / U64_MAX) <= cap <= U128_MAX
  {
    var scale := cap / U64_MAX;
    assert scale * U64_MAX <= cap;
    assert sample * scale <= U64_MAX * scale;
  }

  method Stretch(sample: nat, cap: Duration) returns (d: Duration)
    requires sample <= U64_MAX
    ensures sample * (cap / U64_MAX) <= cap <= U128_MAX
    ensures d == if sample * (cap / U64_MAX) <= U64_MAX then sample * (cap / U64_MAX) else U64_MAX
  {
    StretchedFits(sample, cap);
    var scale := cap / U64_MAX;
    d := Min(Min(sample * scale, cap), U64_MAX);
  }

  /** A number drawn from the range 0 to `max`. */
  datatype Draw = Draw(max: nat, got: nat)

  /** The random generator returns anything in the range it is asked for. */
  class Rng {
    ghost var draws: seq<Draw>

    constructor ()
      ensures draws == []
    {
      draws := [];
    }

    method Range(max: nat) returns (n: nat)
      modifies this
      ensures n <= max && draws == old(draws) + [Draw(max, n)]
    {
      n :| n <= max;
      draws := draws + [Draw(max, n)];
    }
  }

  /** How a delay comes about: without jitter, or with nothing to choose from, it is the cap and
      nothing is drawn. Else one number is drawn from the whole range up to the cap; it is the delay,
      or for very long delays it is drawn from 64 bits, stretched, and cut at 64 bits. */
  ghost predicate DelayDrawn(c: RetryConfig, attempt: nat, before: seq<Draw>, after: seq<Draw>, d: nat) {
    var cap := IdealCap(c, attempt);
    if c.jitter.NoJitter? || cap == 0 then after == before && d == cap
    else
      && |after| == |before| + 1 && after[..|before|] == before
      && var draw := after[|before|];
      && draw.got <= draw.max
      && (cap <= U64_MAX ==> draw.max == cap && d == draw.got)
      && (cap > U64_MAX ==>
            && draw.max == U64_MAX
            && var product := draw.got * (cap / U64_MAX);
            product <= U128_MAX && d == if product <= U64_MAX then product else U64_MAX)
  }

  /** `delay_with_rng`: always at most the cap, and no product leaves 128 bits. */
  method Delay(c: RetryConfig, attempt: nat, rng: Rng) returns (d: Duration)
    modifies rng
    ensures d <= IdealCap(c, attempt) <= c.maxDelay
    ensures c.jitter.NoJitter? ==> d == IdealCap(c, attempt)
    ensures DelayDrawn(c, attempt, old(rng.draws), rng.draws, d)
  {
    hide IdealCap;
    CapMonotone(c, attempt, attempt);
    var cap := CapForAttempt(c, attempt);
    match c.jitter {
      case NoJitter =>
        return cap;
      case Full =>
        if cap == 0 {
          return 0;
        }
        if cap <= U64_MAX {
          d := rng.Range(cap);
          return;
        }
        var base := rng.Range(U64_MAX);
        d := Stretch(base, cap);
    }
  }
}

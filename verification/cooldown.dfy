/**
 * The pause between two monitoring sessions. `main` computes it once: the
 * configured seconds, or five minutes when the configured value is not
 * positive.
 */
module Cooldown {

  const DefaultCooldownSeconds: int := 5 * 60

  /**
   * The effective cooldown in seconds: first the configured value, then
   * overwritten by the default when the configured value is zero or negative.
   */
  method EffectiveCooldown(configured: int) returns (seconds: int)
    ensures seconds > 0
    ensures configured <= 0 ==> seconds == DefaultCooldownSeconds
    ensures configured > 0 ==> seconds == configured
  {
    seconds := configured;
    if configured <= 0 {
      seconds := DefaultCooldownSeconds;
    }
  }

  // The computation as Go performs it: `time.Duration(cfg.Cooldown) * time.Second`
  // is a product of 64-bit nanosecond counts, which wraps around silently.

  const NanosPerSecond: int := 1_000_000_000
  const MinInt64: int := -0x8000_0000_0000_0000
  const MaxInt64: int := 0x7FFF_FFFF_FFFF_FFFF

  /** Two's-complement wrap-around of an integer into the int64 range. */
  function WrapInt64(x: int): (w: int)
    ensures MinInt64 <= w <= MaxInt64
    ensures MinInt64 <= x <= MaxInt64 ==> w == x
    ensures (w - x) % 0x1_0000_0000_0000_0000 == 0
  {
    (x - MinInt64) % 0x1_0000_0000_0000_0000 + MinInt64
  }

  /** The cooldown duration in nanoseconds exactly as `main` computes it. */
  function CooldownNanosAsWritten(configured: int): (d: int)
    requires MinInt64 <= configured <= MaxInt64
    ensures MinInt64 <= d <= MaxInt64
    ensures configured <= 0 ==> d == DefaultCooldownSeconds * NanosPerSecond
  {
    var d := WrapInt64(configured * NanosPerSecond);
    if configured <= 0 then DefaultCooldownSeconds * NanosPerSecond else d
  }

  /** Below the overflow threshold the Go computation is the intended one. */
  lemma CooldownNanosWithoutOverflow(configured: int)
    requires 0 < configured <= MaxInt64 / NanosPerSecond
    ensures CooldownNanosAsWritten(configured) == configured * NanosPerSecond > 0
  {
  }

  /**
   * One second past the threshold the product wraps to a negative duration:
   * the "not positive" guard has already passed, and `time.Sleep` of a
   * negative duration returns at once.
   */
  lemma CooldownOverflowIsNegative()
    ensures CooldownNanosAsWritten(MaxInt64 / NanosPerSecond + 1) < 0
  {
  }
}

/** How long a cache keeps an entry. Durations are in nanoseconds. */
module Durations {

  const ONE_YEAR: int := 365 * 24 * 3600 * 1000000000
  const MAX_DURATION: int := 0x7FFF_FFFF_FFFF_FFFF

  function Min(a: int, b: int): int {
    if a <= b then a else b
  }

  /** The largest jitter that can be drawn; the division is split so that no product overflows. */
  function MaxJitter(base: int, percentage: nat): int {
    if base <= 0 || percentage == 0 then 0
    else
      var p := Min(percentage, 100);
      base / 100 * p + base % 100 * p / 100
  }

  lemma SplitProduct(q: int, r: int, p: int)
    ensures (100 * q + r) * p == 100 * (q * p) + r * p
  {
  }

  lemma SplitDivision(k: int, m: int)
    ensures (100 * k + m) / 100 == k + m / 100
  {
  }

  lemma ShareBounds(base: nat, p: nat)
    requires p <= 100
    ensures 0 <= base * p <= 100 * base
  {
  }

  /** The split division loses nothing: it is the capped percentage of the base, rounded down. */
  lemma MaxJitterIsShare(base: int, percentage: nat)
    requires base > 0
    ensures MaxJitter(base, percentage) == base * Min(percentage, 100) / 100
    ensures 0 <= MaxJitter(base, percentage) <= base
  {
    var p := Min(percentage, 100);
    var q, r := base / 100, base % 100;
    assert base == 100 * q + r;
    SplitProduct(q, r, p);
    SplitDivision(q * p, r * p);
    ShareBounds(base, p);
  }

  /** The longest duration that jittering can return. */
  function LongestTTL(base: int, percentage: nat): int {
    Min(base + MaxJitter(base, percentage), MAX_DURATION)
  }

  /** `draw` is the random number, of those from zero to the largest jitter. */
  method JitteredTTL(base: int, percentage: nat, draw: nat) returns (ttl: int)
    requires -MAX_DURATION - 1 <= base <= MAX_DURATION && draw <= MaxJitter(base, percentage)
    ensures ttl == Min(base + draw, MAX_DURATION)
    ensures base <= ttl <= LongestTTL(base, percentage)
    ensures base <= 0 || percentage == 0 ==> ttl == base
  {
    if base <= 0 || percentage == 0 {
      return base;
    }
    MaxJitterIsShare(base, percentage);
    if draw > MAX_DURATION - base {
      return MAX_DURATION;
    }
    ttl := base + draw;
  }

  /** `Set` cuts a duration to one year; it stores nothing when the duration is negative. */
  function Life(ttl: int): int {
    Min(ttl, ONE_YEAR)
  }
}

/** How a credit account's debt turns into a speed, and the speed into a byte rate. Every `f64` is a real here. */
module Throttle {
  import opened Sums
  import opened Wrappers

  datatype Policy = Policy(softThrottle: real, fallback: real, minSpeed: real)

  /** `f64::EPSILON`. */
  const EPSILON: real := 1.0 / 4503599627370496.0

  function MaxR(a: real, b: real): real { if a >= b then a else b }

  function Utilization(debt: int, limit: int): real { Max(debt, 0) as real / Max(limit, 1) as real }

  predicate FallsBack(p: Policy, u: real) { u >= p.fallback }

  function Clamp01(x: real): real { if x < 0.0 then 0.0 else if x > 1.0 then 1.0 else x }

  function Factor(p: Policy, u: real): real
  {
    if u < p.softThrottle then 1.0
    else if FallsBack(p, u) then p.minSpeed
    else
      1.0 - Progress(p, u) * (1.0 - p.minSpeed)
  }

  predicate Sensible(p: Policy)
  {
    0.0 <= p.softThrottle <= p.fallback && 0.0 <= p.minSpeed <= 1.0
  }

  lemma DivMonotone(a: real, b: real, d: real)
    requires a <= b && d > 0.0
    ensures a / d <= b / d
  {
    assert (b - a) / d >= 0.0;
  }

  lemma DivAntitone(a: real, c: real, d: real)
    requires 0.0 <= a && 0.0 < c <= d
    ensures a / d <= a / c
  {
    var q := a / c;
    assert q * c == a;
    assert q >= 0.0;
    assert q * d >= q * c;
    DivMonotone(a, q * d, d);
    assert q * d / d == q;
  }

  /** More debt, or a smaller limit, is more utilization. */
  lemma UtilizationMonotone(debt: int, limit: int, debt': int, limit': int)
    requires Max(debt, 0) <= Max(debt', 0) && Max(limit', 1) <= Max(limit, 1)
    ensures 0.0 <= Utilization(debt, limit) <= Utilization(debt', limit')
  {
    var d, d', l, l' := Max(debt, 0) as real, Max(debt', 0) as real, Max(limit, 1) as real, Max(limit', 1) as real;
    DivAntitone(d, l', l);
    DivMonotone(d, d', l');
    DivMonotone(0.0, d, l);
    assert 0.0 / l == 0.0;
  }

  lemma ScaleDown(x: real, y: real, k: real)
    requires x <= y && k >= 0.0
    ensures x * k <= y * k && k * x <= k * y
  {
  }

  /** A blend of full speed and the minimum lies between them, and falls as the minimum's share grows. */
  lemma Blend(progress: real, progress': real, minSpeed: real)
    requires 0.0 <= progress <= progress' <= 1.0 && 0.0 <= minSpeed <= 1.0
    ensures minSpeed <= 1.0 - progress' * (1.0 - minSpeed) <= 1.0 - progress * (1.0 - minSpeed) <= 1.0
  {
    ScaleDown(0.0, progress, 1.0 - minSpeed);
    ScaleDown(progress, progress', 1.0 - minSpeed);
    ScaleDown(progress', 1.0, 1.0 - minSpeed);
  }

  /** How far utilization has come from the soft threshold towards fallback. */
  function Progress(p: Policy, u: real): (x: real)
    ensures 0.0 <= x <= 1.0
  {
    Clamp01((u - p.softThrottle) / MaxR(p.fallback - p.softThrottle, EPSILON))
  }

  lemma ProgressMonotone(p: Policy, u: real, u': real)
    requires u <= u'
    ensures Progress(p, u) <= Progress(p, u')
  {
    DivMonotone(u - p.softThrottle, u' - p.softThrottle, MaxR(p.fallback - p.softThrottle, EPSILON));
  }

  lemma FactorInRange(p: Policy, u: real)
    requires Sensible(p)
    ensures p.minSpeed <= Factor(p, u) <= 1.0
  {
    hide Progress;
    Blend(Progress(p, u), Progress(p, u), p.minSpeed);
  }

  /** For a sensible policy, more utilization never gives a higher speed. */
  lemma FactorMonotone(p: Policy, u: real, u': real)
    requires Sensible(p) && u <= u'
    ensures Factor(p, u') <= Factor(p, u)
  {
    hide Progress;
    FactorInRange(p, u);
    FactorInRange(p, u');
    ProgressMonotone(p, u, u');
    Blend(Progress(p, u), Progress(p, u'), p.minSpeed);
  }

  /** The whole curve: full speed below the soft threshold, the minimum from fallback on, and in between a straight line
      from the one to the other. */
  lemma FactorExactly(p: Policy, u: real)
    ensures u < p.softThrottle ==> Factor(p, u) == 1.0
    ensures u >= p.softThrottle && u >= p.fallback ==> Factor(p, u) == p.minSpeed
    ensures p.softThrottle <= u < p.fallback && p.fallback - p.softThrottle >= EPSILON ==>
              (1.0 - Factor(p, u)) * (p.fallback - p.softThrottle) == (u - p.softThrottle) * (1.0 - p.minSpeed)
  {
    var gap := p.fallback - p.softThrottle;
    if p.softThrottle <= u < p.fallback && gap >= EPSILON {
      var x := (u - p.softThrottle) / gap;
      assert x * gap == u - p.softThrottle;
      DivMonotone(0.0, u - p.softThrottle, gap);
      DivMonotone(u - p.softThrottle, gap, gap);
      assert 0.0 / gap == 0.0 && gap / gap == 1.0;
      assert Progress(p, u) == x;
      Rearranged(x, 1.0 - p.minSpeed, gap);
    }
  }

  lemma Rearranged(x: real, y: real, z: real)
    ensures x * y * z == x * z * y
  {
  }

  /** So speed falls strictly from the soft threshold to fallback, unless there is nothing to lose. */
  lemma FactorFalls(p: Policy, u: real, u': real)
    requires Sensible(p) && p.minSpeed < 1.0 && p.fallback - p.softThrottle >= EPSILON
    requires p.softThrottle <= u < u' <= p.fallback
    ensures Factor(p, u') < Factor(p, u)
  {
    var gap, drop := p.fallback - p.softThrottle, 1.0 - p.minSpeed;
    FactorExactly(p, u);
    FactorExactly(p, u');
    if u' == p.fallback { Commutes(drop, gap); }
    hide Factor;
    Falls(1.0 - Factor(p, u), 1.0 - Factor(p, u'), gap, u - p.softThrottle, u' - p.softThrottle, drop);
  }

  lemma Falls(lost: real, lost': real, gap: real, a: real, b: real, drop: real)
    requires lost * gap == a * drop && lost' * gap == b * drop && a < b && drop > 0.0 && gap > 0.0
    ensures lost < lost'
  {
    MoreTimes(a, b, drop);
    if lost' <= lost { ScaleDown(lost', lost, gap); }
  }

  lemma Commutes(x: real, y: real)
    ensures x * y == y * x
  {
  }

  lemma MoreTimes(a: real, b: real, k: real)
    requires a < b && k > 0.0
    ensures a * k < b * k
  {
  }

  /** Utilization is the share of the limit, of at least one, that is owed. */
  lemma UtilizationExactly(debt: int, limit: int)
    ensures Utilization(debt, limit) * Max(limit, 1) as real == Max(debt, 0) as real
  {
  }

  // ---- the rate limit of one transport ----

  /** A share of a rate, rounded as `f64::round` does for what is not negative. */
  function Scaled(base: nat, factor: real): int { (base as real * factor + 0.5).Floor }

  lemma ScaledMonotone(base: nat, factor: real, factor': real)
    requires factor <= factor'
    ensures Scaled(base, factor) <= Scaled(base, factor')
  {
    ScaleDown(factor, factor', base as real);
    FloorMonotone(base as real * factor + 0.5, base as real * factor' + 0.5);
  }

  lemma FloorMonotone(x: real, y: real)
    requires x <= y
    ensures x.Floor <= y.Floor
  {
  }

  /** Bytes per second, or no limit at all. */
  function RateLimit(premium: bool, bandwidthMbps: Option<nat>, factor: real): Option<nat>
  {
    if !premium || factor >= 0.999 then None
    else
      var advertised := Max(if bandwidthMbps.Some? then bandwidthMbps.value else 16, 1);
      var base := if advertised * 125_000 <= U64_MAX then advertised * 125_000 else U64_MAX;
      Some(ToU64(Max(Scaled(base, factor), 16_384)))
  }

  /** `as u64` on a non-negative number: too large a value becomes the largest one. */
  function ToU64(x: nat): nat { if x <= U64_MAX then x else U64_MAX }

  predicate NoFaster(a: Option<nat>, b: Option<nat>) { b.None? || (a.Some? && a.value <= b.value) }

  /** A lower speed factor never allows a transport more bytes per second. */
  lemma RateLimitMonotone(premium: bool, bandwidthMbps: Option<nat>, factor: real, factor': real)
    requires factor <= factor'
    ensures NoFaster(RateLimit(premium, bandwidthMbps, factor), RateLimit(premium, bandwidthMbps, factor'))
    ensures RateLimit(premium, bandwidthMbps, factor).Some?
            ==> RateLimit(premium, bandwidthMbps, factor).value >= 16_384
  {
    var advertised := Max(if bandwidthMbps.Some? then bandwidthMbps.value else 16, 1);
    var base := if advertised * 125_000 <= U64_MAX then advertised * 125_000 else U64_MAX;
    ScaledMonotone(base, factor, factor');
    hide Scaled;
  }

  /** Free transports and speeds of practically one have no cap, and all others have. */
  lemma CappedExactly(premium: bool, bandwidthMbps: Option<nat>, factor: real)
    ensures RateLimit(premium, bandwidthMbps, factor).None? <==> !premium || factor >= 0.999
  {
  }

  /** A cap is the factor's share of the advertised bandwidth (16 Mbit/s where none is advertised), to the nearest byte,
      but no less than 16384 bytes a second. So it never passes what is advertised, or that least cap. */
  lemma CapIsShare(bandwidthMbps: Option<nat>, factor: real)
    requires 0.0 <= factor < 0.999
    requires bandwidthMbps.Some? ==> bandwidthMbps.value * 125_000 <= U64_MAX
    ensures var full := Max(if bandwidthMbps.Some? then bandwidthMbps.value else 16, 1) * 125_000;
            var cap := RateLimit(true, bandwidthMbps, factor).value;
            && 16_384 <= cap <= Max(full, 16_384)
            && (if full as real * factor < 16_383.5 then cap == 16_384
                else -0.5 <= cap as real - full as real * factor <= 0.5)
  {
    var full := Max(if bandwidthMbps.Some? then bandwidthMbps.value else 16, 1) * 125_000;
    ShareOf(full, factor);
    hide Scaled;
  }

  lemma ShareOf(full: nat, factor: real)
    requires 0.0 <= factor < 0.999
    ensures var scaled, share := Scaled(full, factor), full as real * factor;
            0 <= scaled <= full && -0.5 <= scaled as real - share <= 0.5
  {
    var share := full as real * factor;
    ScaleDown(0.0, factor, full as real);
    ScaleDown(factor, 1.0, full as real);
    Rounds(share, full);
  }

  lemma Rounds(share: real, full: nat)
    requires 0.0 <= share <= full as real
    ensures var scaled := (share + 0.5).Floor; 0 <= scaled <= full && -0.5 <= scaled as real - share <= 0.5
  {
  }
}

// Frame timing, mains anti-banding and the auto-exposure loop of the camera pipeline
// (camera/CameraPipeline.cpp).

module MainsGrid {
  import opened RingArithmetic

  datatype Sensor = Sensor(vtsLines: nat, unitsPerLine: nat, expMin: nat, expMax: nat, gainMin: nat)

  const IMX179 := Sensor(2510, 1, 10, 2500, 1)
  const OV5693 := Sensor(992, 16, 160, 15800, 16)
  const GAIN_MAX: nat := 240

  // mMainHalfNs for 50 Hz and 60 Hz mains; 0 switches anti-banding off.
  const HALF_50: nat := 10_000_000
  const HALF_60: nat := 8_333_333

  predicate Known(sensor: Sensor) {
    sensor == IMX179 || sensor == OV5693
  }

  predicate Mains(half: nat) {
    half == HALF_50 || half == HALF_60
  }

  // Frame deltas that the jitter filter lets through.
  predicate Plausible(delta: int) {
    5_000_000 < delta < 200_000_000
  }

  // mExposureStepLines: one mains half-period in the sensor's exposure units.
  function StepOf(sensor: Sensor, period: nat, half: nat): nat
    requires Known(sensor) && Plausible(period)
  {
    var line := period / sensor.vtsLines;
    var lines := (half + line / 2) / line;
    (if lines < 1 then 1 else lines) * sensor.unitsPerLine
  }

  lemma QuotientSteps(x: nat, s: nat)
    requires s > 0
    ensures x / s * s <= x < x / s * s + s
  {
  }

  lemma AtLeastOneStep(a: int, b: int, s: nat)
    requires s > 0 && a < b
    ensures a * s + s <= b * s
  {
    NotNegative(b - a - 1, s);
    assert (b - a - 1) * s == b * s - a * s - s;
  }

  lemma NotNegative(a: nat, b: nat)
    ensures a * b >= 0
  {
  }

  lemma LinesBound(half: nat, line: nat, n: nat)
    requires 0 < line && n * line <= half
    ensures n <= (half + line / 2) / line
  {
    QuotientSteps(half + line / 2, line);
    if (half + line / 2) / line < n {
      AtLeastOneStep((half + line / 2) / line, n, line);
    }
  }

  // The half-period in lines, rounded.
  lemma RoundedLines(half: nat, line: nat)
    requires line > 0
    ensures var n := (half + line / 2) / line;
            2 * Distance(n * line, half) <= line && (half >= line ==> n >= 1) && (half < line ==> n <= 1)
  {
    var n := (half + line / 2) / line;
    QuotientSteps(half + line / 2, line);
    MultipleOrder(n, 0, line);
    MultipleOrder(2, n, line);
  }

  // A grid step is the mains half-period in exposure units, to within half a line, and at least one line.
  lemma StepIsHalfPeriod(sensor: Sensor, period: nat, half: nat) returns (lines: nat)
    requires Known(sensor) && Plausible(period)
    ensures StepOf(sensor, period, half) == lines * sensor.unitsPerLine && lines >= 1
    ensures var line := period / sensor.vtsLines;
            (half >= line ==> 2 * Distance(lines * line, half) <= line) && (half < line ==> lines == 1)
  {
    var line := period / sensor.vtsLines;
    var n := (half + line / 2) / line;
    lines := if n < 1 then 1 else n;
    RoundedLines(half, line);
  }

  // The jitter filter keeps a grid step from being shorter than the shortest exposure.
  lemma StepAtLeastMinimum(sensor: Sensor, period: nat, half: nat)
    requires Known(sensor) && Plausible(period) && Mains(half)
    ensures sensor.expMin <= StepOf(sensor, period, half)
  {
    var line := period / sensor.vtsLines;
    if sensor == IMX179 {
      LinesBound(half, line, 104);
    } else {
      LinesBound(half, line, 41);
    }
  }

  // The snap made when the timing freezes.
  function Snap(exp: nat, s: nat, expMax: nat): (q: nat)
    requires s > 0
  {
    var q := (exp + s / 2) / s * s;
    var capped := if q > expMax then expMax / s * s else q;
    if capped < s then s else capped
  }

  // The snap made by the exposure loop.
  function SnapInLoop(exp: nat, s: nat, expMax: nat): (q: nat)
    requires s > 0
  {
    var q := (exp + s / 2) / s * s;
    var qMax := expMax / s * s;
    var capped := if q > qMax then qMax else q;
    if capped < s then s else capped
  }

  lemma MultipleOrder(a: int, b: int, s: nat)
    requires s > 0
    ensures a < b ==> a * s + s <= b * s
    ensures a <= b <==> a * s <= b * s
  {
    if a < b {
      AtLeastOneStep(a, b, s);
    } else if b < a {
      AtLeastOneStep(b, a, s);
    }
  }

  // Both snaps are one function: a multiple of s is above expMax exactly when it is above the last one below.
  lemma SnapsAgree(exp: nat, s: nat, expMax: nat)
    requires s > 0
    ensures SnapInLoop(exp, s, expMax) == Snap(exp, s, expMax)
  {
    QuotientSteps(expMax, s);
    MultipleOrder((exp + s / 2) / s, expMax / s, s);
    MultipleOrder(expMax / s, (exp + s / 2) / s, s);
  }

  predicate OnGrid(x: int, s: nat)
    requires s > 0
  {
    x % s == 0
  }

  lemma MultipleOnGrid(k: nat, s: nat)
    requires s > 0
    ensures OnGrid(k * s, s)
  {
    ModAddMultiple(0, s, k);
  }

  function Distance(a: int, b: int): nat {
    if a < b then b - a else a - b
  }

  // The snapped exposure is on the grid, at least one step, and within the sensor's range exactly when one
  // step is.
  lemma SnapInRange(exp: nat, s: nat, expMax: nat)
    requires s > 0
    ensures OnGrid(Snap(exp, s, expMax), s)
    ensures s <= Snap(exp, s, expMax)
    ensures Snap(exp, s, expMax) <= expMax <==> s <= expMax
  {
    MultipleOnGrid((exp + s / 2) / s, s);
    MultipleOnGrid(expMax / s, s);
    MultipleOnGrid(1, s);
    QuotientSteps(expMax, s);
  }

  lemma SnapTooLong(exp: nat, s: nat, expMax: nat)
    requires s > expMax && exp <= expMax
    ensures Snap(exp, s, expMax) == s
  {
    QuotientSteps(exp + s / 2, s);
    MultipleOrder((exp + s / 2) / s, 1, s);
    MultipleOrder(1, (exp + s / 2) / s, s);
  }

  // No grid point in the sensor's range is nearer to the wanted exposure.
  lemma SnapIsNearest(exp: nat, s: nat, expMax: nat, k: nat)
    requires s > 0 && 1 <= k && k * s <= expMax
    ensures Distance(Snap(exp, s, expMax), exp) <= Distance(k * s, exp)
  {
    var n, top := (exp + s / 2) / s, expMax / s;
    QuotientSteps(exp + s / 2, s);
    QuotientSteps(expMax, s);
    MultipleOrder(k, n, s);
    MultipleOrder(n, k, s);
    MultipleOrder(top, k, s);
    MultipleOrder(k, top, s);
    MultipleOrder(1, k, s);
  }
}

module AutoExposure {
  import opened MainsGrid

  function Max(a: int, b: int): int {
    if a < b then b else a
  }

  function Clamp(x: int, lo: int, hi: int): int {
    if x < lo then lo else if x > hi then hi else x
  }

  // target / avgLuma, damped to at most 1.7x per frame.
  function Ratio(luma: real, target: real): (r: real)
    ensures 0.6 <= r <= 1.7
  {
    var r := target / (if luma > 0.001 then luma else 0.001);
    if r < 0.6 then 0.6 else if r > 1.7 then 1.7 else r
  }

  function Scaled(p: nat, ratio: real): real {
    p as real * ratio
  }

  function Effective(exp: nat, gain: nat, ratio: real): int {
    Scaled(exp * gain, ratio).Floor
  }

  datatype Setting = Setting(exp: int, gain: int)

  predicate GainInRange(sensor: Sensor, gain: int) {
    sensor.gainMin <= gain <= GAIN_MAX
  }

  predicate InRange(sensor: Sensor, x: Setting) {
    sensor.expMin <= x.exp <= sensor.expMax && GainInRange(sensor, x.gain)
  }

  // Exposure carries the correction first; gain takes what the exposure range cannot.
  function Split(sensor: Sensor, gain: nat, eff: int): Setting
    requires Known(sensor) && gain > 0
  {
    var exp := eff / gain;
    if exp > sensor.expMax then Setting(sensor.expMax, Clamp(eff / sensor.expMax, sensor.gainMin, GAIN_MAX))
    else if exp < sensor.expMin then Setting(sensor.expMin, Clamp(eff / sensor.expMin, sensor.gainMin, GAIN_MAX))
    else Setting(exp, Clamp(gain, sensor.gainMin, GAIN_MAX))
  }

  function CapUp(gain: nat): nat {
    gain + gain * 7 / 10
  }

  function CapDown(gain: nat): nat {
    gain * 10 / 17
  }

  // The gain that absorbs the residual of snapping the exposure to q.
  function Absorb(sensor: Sensor, gain: nat, eff: int, q: nat): int
    requires q > 0
  {
    var g := (eff + q / 2) / q;
    var up := if g > CapUp(gain) then CapUp(gain) else g;
    var down := if up < CapDown(gain) && up < gain then CapDown(gain) else up;
    Clamp(down, sensor.gainMin, GAIN_MAX)
  }

  // What one pass of the loop asks for. `step` is 0 until the timing is frozen, and stays 0 without anti-banding.
  function Wanted(sensor: Sensor, step: nat, now: Setting, ratio: real): Setting
    requires Known(sensor) && now.exp >= 0 && now.gain > 0
  {
    Adjusted(sensor, step, now.gain, Effective(now.exp, now.gain, ratio))
  }

  // The setting for a wanted product of exposure and gain.
  function Adjusted(sensor: Sensor, step: nat, gain: nat, eff: int): Setting
    requires Known(sensor) && gain > 0
  {
    var plain := Split(sensor, gain, eff);
    if step <= 1 then plain
    else
      var q := SnapInLoop(Max(plain.exp, 0), step, sensor.expMax);
      if q == plain.exp then plain else Setting(q, Absorb(sensor, gain, eff, q))
  }

  // ---- Bounds ----

  lemma EffectiveBounds(exp: nat, gain: nat, ratio: real)
    requires 0.6 <= ratio <= 1.7
    ensures 0 <= Effective(exp, gain, ratio)
    ensures 10 * Effective(exp, gain, ratio) <= 17 * (exp * gain)
    ensures 3 * (exp * gain) < 5 * (Effective(exp, gain, ratio) + 1)
  {
    ScaledBounds(exp * gain, ratio);
    FloorBounds(exp * gain, Scaled(exp * gain, ratio));
  }

  lemma ScaledBounds(p: nat, ratio: real)
    requires 0.6 <= ratio <= 1.7
    ensures 6.0 * (p as real) <= 10.0 * Scaled(p, ratio) <= 17.0 * (p as real)
  {
    ProductNotNegative(p as real, ratio - 0.6);
    ProductNotNegative(p as real, 1.7 - ratio);
  }

  lemma ProductNotNegative(x: real, y: real)
    requires 0.0 <= x && 0.0 <= y
    ensures 0.0 <= x * y
  {
  }

  lemma FloorBounds(p: nat, x: real)
    requires 6.0 * (p as real) <= 10.0 * x <= 17.0 * (p as real)
    ensures 0 <= x.Floor && 10 * x.Floor <= 17 * p && 3 * p < 5 * (x.Floor + 1)
  {
  }

  lemma CancelFactor(a: int, b: int, n: nat)
    requires n > 0
    ensures a * n <= b * n ==> a <= b
    ensures a * n < b * n ==> a < b
  {
    if b < a {
      AtLeastOneStep(b, a, n);
    }
  }

  lemma MulMonotone(a: nat, b: nat, n: nat)
    requires a <= b
    ensures a * n <= b * n
  {
  }

  lemma Scale(c: int, a: int, n: int)
    ensures (c * a) * n == c * (a * n)
  {
  }

  lemma Distribute(a: int, n: int)
    ensures (a + 1) * n == a * n + n
  {
  }

  // At the long end the gain grows by no more than the damping factor.
  lemma GainAtLongEnd(expMax: nat, exp: nat, gain: nat, eff: nat)
    requires 0 < exp <= expMax && 10 * eff <= 17 * (exp * gain) && gain * expMax + gain <= eff
    ensures gain <= eff / expMax <= CapUp(gain)
  {
    var g := eff / expMax;
    QuotientSteps(eff, expMax);
    MulMonotone(exp, expMax, gain);
    LongEndFactors(expMax, gain, g, eff, exp * gain);
  }

  lemma LongEndFactors(expMax: nat, gain: nat, g: nat, eff: nat, p: nat)
    requires 0 < expMax && 10 * eff <= 17 * p && p <= expMax * gain && gain * expMax + gain <= eff
    requires g * expMax <= eff < g * expMax + expMax
    ensures gain <= g && 10 * g <= 17 * gain
  {
    Scale(10, g, expMax);
    Scale(17, gain, expMax);
    CancelFactor(10 * g, 17 * gain, expMax);
    Distribute(g, expMax);
    CancelFactor(gain, g + 1, expMax);
  }

  // At the short end it shrinks by no more than it.
  lemma GainAtShortEnd(expMin: nat, exp: nat, gain: nat, eff: nat)
    requires 0 < expMin <= exp && 3 * (exp * gain) < 5 * (eff + 1) && eff < gain * expMin
    ensures CapDown(gain) <= eff / expMin < gain
  {
    var g := eff / expMin;
    QuotientSteps(eff, expMin);
    MulMonotone(expMin, exp, gain);
    ShortEndFactors(expMin, gain, g, eff, exp * gain);
  }

  lemma ShortEndFactors(expMin: nat, gain: nat, g: nat, eff: nat, p: nat)
    requires 0 < expMin && 3 * p < 5 * (eff + 1) && expMin * gain <= p && eff < gain * expMin
    requires g * expMin <= eff < g * expMin + expMin
    ensures g < gain && 3 * gain < 5 * (g + 1)
  {
    Scale(3, gain, expMin);
    Scale(5, g + 1, expMin);
    Distribute(g, expMin);
    CancelFactor(3 * gain, 5 * (g + 1), expMin);
    CancelFactor(g, gain, expMin);
  }

  // The gain moves by no more than the factor 1.7, up or down, rounded down.
  predicate Damped(before: int, after: int) {
    0 <= before && 0 <= after && 10 * after <= 17 * before && 10 * before < 17 * (after + 1)
  }

  // The two caps are the ends of that range.
  lemma CapsAreDamping(before: nat, after: nat)
    ensures Damped(before, after) <==> CapDown(before) <= after <= CapUp(before)
  {
  }

  lemma QuotientAbove(eff: nat, gain: nat, bound: nat)
    requires gain > 0 && eff / gain > bound
    ensures gain * bound + gain <= eff
  {
    QuotientSteps(eff, gain);
    AtLeastOneStep(bound, eff / gain, gain);
  }

  lemma QuotientBelow(eff: nat, gain: nat, bound: nat)
    requires gain > 0 && eff / gain < bound
    ensures eff < gain * bound
  {
    QuotientSteps(eff, gain);
    AtLeastOneStep(eff / gain, bound, gain);
  }

  lemma SplitInRange(sensor: Sensor, exp: nat, gain: nat, eff: nat)
    requires Known(sensor) && InRange(sensor, Setting(exp, gain))
    requires 10 * eff <= 17 * (exp * gain) && 3 * (exp * gain) < 5 * (eff + 1)
    ensures InRange(sensor, Split(sensor, gain, eff)) && Damped(gain, Split(sensor, gain, eff).gain)
  {
    if eff / gain > sensor.expMax {
      QuotientAbove(eff, gain, sensor.expMax);
      GainAtLongEnd(sensor.expMax, exp, gain, eff);
    } else if eff / gain < sensor.expMin {
      QuotientBelow(eff, gain, sensor.expMin);
      GainAtShortEnd(sensor.expMin, exp, gain, eff);
    }
  }

  lemma AbsorbInRange(sensor: Sensor, gain: nat, eff: int, q: nat)
    requires Known(sensor) && GainInRange(sensor, gain) && q > 0
    ensures GainInRange(sensor, Absorb(sensor, gain, eff, q))
    ensures Damped(gain, Absorb(sensor, gain, eff, q))
  {
  }

  // Of all gains in range and within the damping, the absorbing gain is nearest to the one that makes up exactly.
  lemma AbsorbIsNearest(sensor: Sensor, gain: nat, eff: nat, q: nat, other: nat)
    requires Known(sensor) && GainInRange(sensor, gain) && q > 0
    requires GainInRange(sensor, other) && Damped(gain, other)
    ensures var exact := (eff + q / 2) / q;
            Distance(Absorb(sensor, gain, eff, q), exact) <= Distance(other, exact)
  {
    CapsAreDamping(gain, other);
  }

  // The gain the exposure range leaves to be set, before its own limits.
  function GainLeft(sensor: Sensor, gain: nat, eff: int): int
    requires Known(sensor) && gain > 0
  {
    if eff / gain > sensor.expMax then eff / sensor.expMax
    else if eff / gain < sensor.expMin then eff / sensor.expMin
    else gain
  }

  // While the gain limits do not bite, exposure times gain meets the wanted brightness to within one unit.
  lemma SplitTracksTarget(sensor: Sensor, gain: nat, eff: nat)
    requires Known(sensor) && gain > 0 && GainInRange(sensor, GainLeft(sensor, gain, eff))
    ensures var x := Split(sensor, gain, eff); x.exp * x.gain <= eff < x.exp * x.gain + Max(x.exp, x.gain)
  {
    QuotientSteps(eff, gain);
    QuotientSteps(eff, sensor.expMax);
    QuotientSteps(eff, sensor.expMin);
  }

  // After a snap the gain makes up for it to within half a unit, while neither cap nor limit bites.
  lemma AbsorbTracksTarget(sensor: Sensor, gain: nat, eff: nat, q: nat)
    requires Known(sensor) && q > 0 && GainInRange(sensor, (eff + q / 2) / q) && Damped(gain, (eff + q / 2) / q)
    ensures Distance(Absorb(sensor, gain, eff, q) * q, eff) <= q / 2
  {
    RoundedQuotient(eff, q, (eff + q / 2) / q);
  }

  lemma RoundedQuotient(eff: nat, q: nat, g: nat)
    requires q > 0 && g == (eff + q / 2) / q
    ensures Distance(g * q, eff) <= q / 2
  {
    QuotientSteps(eff + q / 2, q);
  }

  // ---- The direction of a correction ----

  // The luma the code divides by.
  function Seen(luma: real): real {
    if luma > 0.001 then luma else 0.001
  }

  lemma Quotient(a: real, l: real, k: real)
    requires l > 0.0
    ensures a / l * l == a
    ensures a / l < k <==> a < k * l
    ensures a / l > k <==> a > k * l
  {
    var r := a / l;
    assert r * l == a;
    if r < k {
      PositiveProduct(k - r, l);
      assert (k - r) * l == k * l - r * l;
    } else if r > k {
      PositiveProduct(r - k, l);
      assert (r - k) * l == r * l - k * l;
    }
  }

  lemma PositiveProduct(x: real, y: real)
    requires 0.0 < x && 0.0 < y
    ensures 0.0 < x * y
  {
  }

  // The correction that would bring the scene to the target, or the nearer of the two bounds.
  lemma RatioMeetsTarget(luma: real, target: real)
    ensures 0.6 * Seen(luma) <= target <= 1.7 * Seen(luma) ==> Ratio(luma, target) * Seen(luma) == target
    ensures target < 0.6 * Seen(luma) ==> Ratio(luma, target) == 0.6
    ensures target > 1.7 * Seen(luma) ==> Ratio(luma, target) == 1.7
  {
    Quotient(target, Seen(luma), 0.6);
    Quotient(target, Seen(luma), 1.7);
  }

  // What a correction amounts to, against the target and against no correction.
  lemma RatioSide(luma: real, target: real)
    ensures TowardsTarget(Ratio(luma, target), Seen(luma), target)
  {
    var l := Seen(luma);
    RatioMeetsTarget(luma, target);
    Quotient(target, l, 1.0);
    Quotient(target, l, 0.6);
    Quotient(target, l, 1.7);
  }

  lemma EffectiveFloor(p: nat, ratio: real)
    requires 0.6 <= ratio <= 1.7
    ensures var e := Scaled(p, ratio).Floor;
            && e as real <= Scaled(p, ratio) < e as real + 1.0
            && (ratio >= 1.0 ==> p <= e) && (ratio <= 1.0 ==> e <= p)
  {
    if ratio >= 1.0 {
      ProductNotNegative(p as real, ratio - 1.0);
    }
    if ratio <= 1.0 {
      ProductNotNegative(p as real, 1.0 - ratio);
    }
  }

  lemma Products(a: nat, b: nat, m: nat, n: nat)
    requires a <= b && m <= n
    ensures a * m <= b * n
  {
    MulMonotone(a, b, m);
    MulMonotone(m, n, b);
  }

  // Asked for more light, exposure and gain never give less than before nor more than asked.
  lemma SplitRises(sensor: Sensor, exp: nat, gain: nat, eff: nat)
    requires Known(sensor) && InRange(sensor, Setting(exp, gain))
    requires exp * gain <= eff && 10 * eff <= 17 * (exp * gain)
    ensures var x := Split(sensor, gain, eff);
            exp <= x.exp && gain <= x.gain && exp * gain <= x.exp * x.gain <= eff && x.exp * gain <= eff
  {
    QuotientSteps(eff, gain);
    if eff / gain < exp {
      AtLeastOneStep(eff / gain, exp, gain);
    }
    var x := Split(sensor, gain, eff);
    if eff / gain > sensor.expMax {
      QuotientAbove(eff, gain, sensor.expMax);
      GainAtLongEnd(sensor.expMax, exp, gain, eff);
      QuotientSteps(eff, sensor.expMax);
      Products(x.gain, eff / sensor.expMax, sensor.expMax, sensor.expMax);
      MulMonotone(gain, x.gain, sensor.expMax);
    }
    Products(exp, x.exp, gain, x.gain);
  }

  // Asked for less, they never give more than before, nor less than asked by more than the rounding.
  lemma SplitFalls(sensor: Sensor, exp: nat, gain: nat, eff: nat)
    requires Known(sensor) && InRange(sensor, Setting(exp, gain))
    requires eff <= exp * gain && 3 * (exp * gain) < 5 * (eff + 1)
    ensures var x := Split(sensor, gain, eff);
            && 0 <= x.exp <= exp && 0 <= x.gain <= gain && x.exp * x.gain <= exp * gain
            && eff < x.exp * x.gain + Max(x.exp, x.gain) && eff < (x.exp + 1) * gain
  {
    QuotientSteps(eff, gain);
    if exp < eff / gain {
      AtLeastOneStep(exp, eff / gain, gain);
    }
    var x := Split(sensor, gain, eff);
    Distribute(eff / gain, gain);
    if eff / gain < sensor.expMin {
      QuotientBelow(eff, gain, sensor.expMin);
      GainAtShortEnd(sensor.expMin, exp, gain, eff);
      QuotientSteps(eff, sensor.expMin);
      Products(eff / sensor.expMin, x.gain, sensor.expMin, sensor.expMin);
      Distribute(sensor.expMin, gain);
    }
    Products(x.exp, exp, x.gain, gain);
  }

  // Neighbours on the grid.
  lemma GridStep(q: nat, s: nat, exp: nat, k: nat) returns (n: nat)
    requires 0 < s && OnGrid(q, s) && exp == k * s
    ensures q == n * s && (n - 1) * s == q - s && (n + 1) * s == q + s
    ensures exp < q ==> k < n && exp + s <= q
    ensures q < exp ==> n < k && q + s <= exp
  {
    n := q / s;
    assert q == n * s;
    Distribute(n - 1, s);
    Distribute(n, s);
    MultipleOrder(k, n, s);
    MultipleOrder(n, k, s);
  }

  // Where the snap of x lands, seen from a grid point on one side of x.
  lemma SnapUp(x: nat, s: nat, expMax: nat, exp: nat, k: nat)
    requires 0 < s && 1 <= k && exp == k * s && exp <= x <= expMax
    ensures var q := Snap(x, s, expMax); exp <= q && (q > x ==> 2 * (q - x) <= s && exp + s <= q)
  {
    var q := Snap(x, s, expMax);
    SnapIsNearest(x, s, expMax, k);
    SnapInRange(x, s, expMax);
    var n := GridStep(q, s, exp, k);
    if q > x {
      SnapIsNearest(x, s, expMax, n - 1);
    }
  }

  lemma SnapDown(x: nat, s: nat, expMax: nat, exp: nat, k: nat)
    requires 0 < s && 1 <= k && exp == k * s && x <= exp <= expMax
    ensures var q := Snap(x, s, expMax); q <= exp && (q < x ==> 2 * (x - q) <= s && q + s <= exp)
  {
    var q := Snap(x, s, expMax);
    SnapIsNearest(x, s, expMax, k);
    SnapInRange(x, s, expMax);
    var n := GridStep(q, s, exp, k);
    if q < x {
      SnapIsNearest(x, s, expMax, n + 1);
    }
  }

  // In the next two, `taken` is q times the gain rounded from eff / q, and the other products have gain as a factor.
  lemma RiseSums(eff: nat, q: nat, taken: nat, byQ: nat, byS: nat, byX: nat)
    requires taken <= eff + q / 2 < taken + q && taken + q <= byQ && byX <= eff && 2 * byQ - byS <= 2 * byX
    ensures byQ - byS <= taken
  {
  }

  lemma FallSums(eff: nat, q: nat, taken: nat, byQ: nat, byS: nat, byX: nat, gain: nat)
    requires taken <= eff + q / 2 < taken + q && byQ + q <= taken && eff < byX + gain && 2 * byX <= 2 * byQ + byS
    ensures taken < byQ + byS + 2 * gain
  {
  }

  lemma TimesGain(a: nat, b: nat, s: nat, c: nat, gain: nat)
    requires 2 * a <= 2 * b + s && b + s <= c
    ensures 2 * (a * gain) <= 2 * (b * gain) + s * gain && b * gain + s * gain <= c * gain
  {
    Products(2 * a, 2 * b + s, gain, gain);
    Spread(2, a, 0, gain);
    Spread(2, b, s, gain);
    Products(b + s, c, gain, gain);
    Spread(1, b, s, gain);
  }

  // The gain g rounded from eff / q makes up for the snapped exposure q: more light asked for is not less light given,
  lemma AbsorbedRises(exp: nat, gain: nat, eff: nat, x: nat, q: nat, s: nat, g: nat)
    requires 0 < q && g * q <= eff + q / 2 < g * q + q && x * gain <= eff && exp <= q && g < gain
    requires q > x ==> 2 * (q - x) <= s && exp + s <= q
    ensures exp * gain <= g * q
  {
    AtLeastOneStep(g, gain, q);
    if q <= x {
      Products(q, x, gain, gain);
    } else {
      TimesGain(q, x, s, 2 * x + s, gain);
      TimesGain(exp, exp, s, q, gain);
      RiseSums(eff, q, g * q, q * gain, s * gain, x * gain);
    }
  }

  // and less light asked for is not more light given, but for the rounding of the gain.
  lemma AbsorbedFalls(exp: nat, gain: nat, eff: nat, x: nat, q: nat, s: nat, g: nat)
    requires 0 < q <= exp && g * q <= eff + q / 2 < g * q + q && eff < x * gain + gain && gain < g
    requires q < x ==> 2 * (x - q) <= s && q + s <= exp
    requires x <= q ==> eff <= q * gain
    ensures g * q < exp * gain + 2 * gain
  {
    AtLeastOneStep(gain, g, q);
    if q < x {
      TimesGain(x, q, s, exp, gain);
      FallSums(eff, q, g * q, q * gain, s * gain, x * gain, gain);
    }
  }

  lemma Spread(c: int, a: int, b: int, n: int)
    ensures (c * a + b) * n == c * (a * n) + b * n
  {
  }

  // The rounded gain, and on which side of it the absorbing gain stays.
  lemma AbsorbBounds(sensor: Sensor, gain: nat, eff: nat, q: nat) returns (g: nat, a: nat)
    requires Known(sensor) && GainInRange(sensor, gain) && q > 0
    ensures g == (eff + q / 2) / q && g * q <= eff + q / 2 < g * q + q && a == Absorb(sensor, gain, eff, q)
    ensures (g >= gain ==> gain <= a <= g) && (g <= gain ==> g <= a <= gain)
  {
    g, a := (eff + q / 2) / q, Absorb(sensor, gain, eff, q);
    QuotientSteps(eff + q / 2, q);
  }

  // The light of a setting, as the sensor sees it.
  function Light(x: Setting): int {
    x.exp * x.gain
  }

  // The exposure is free to move, or already on the grid it has to keep.
  predicate OnItsGrid(step: nat, exp: int) {
    step > 1 ==> exp >= step && OnGrid(exp, step)
  }

  lemma KeepsLight(exp: nat, gain: nat, eff: nat, x: nat, q: nat, s: nat, g: nat, a: nat)
    requires 0 < q && g * q <= eff + q / 2 < g * q + q && x * gain <= eff && exp <= q
    requires q > x ==> 2 * (q - x) <= s && exp + s <= q
    requires (g >= gain ==> gain <= a) && (g <= gain ==> g <= a)
    ensures exp * gain <= q * a
  {
    if g >= gain {
      Products(exp, q, gain, a);
    } else {
      AbsorbedRises(exp, gain, eff, x, q, s, g);
      Products(g, a, q, q);
    }
  }

  lemma AddsNoLight(exp: nat, gain: nat, eff: nat, x: nat, q: nat, s: nat, g: nat, a: nat)
    requires 0 < q <= exp && 0 < gain && g * q <= eff + q / 2 < g * q + q && eff < x * gain + gain
    requires (q < x ==> 2 * (x - q) <= s && q + s <= exp) && (x <= q ==> eff <= q * gain)
    requires (g >= gain ==> a <= g) && (g <= gain ==> a <= gain)
    ensures q * a < exp * gain + 2 * gain
  {
    if g <= gain {
      Products(q, exp, a, gain);
    } else {
      AbsorbedFalls(exp, gain, eff, x, q, s, g);
      Products(a, g, q, q);
    }
  }

  lemma AbsorbRises(sensor: Sensor, exp: nat, gain: nat, eff: nat, x: nat, q: nat, s: nat)
    requires Known(sensor) && GainInRange(sensor, gain) && 0 < q && x * gain <= eff && exp <= q
    requires q > x ==> 2 * (q - x) <= s && exp + s <= q
    ensures exp * gain <= q * Absorb(sensor, gain, eff, q)
  {
    var g, a := AbsorbBounds(sensor, gain, eff, q);
    KeepsLight(exp, gain, eff, x, q, s, g, a);
  }

  lemma AbsorbFalls(sensor: Sensor, exp: nat, gain: nat, eff: nat, x: nat, q: nat, s: nat)
    requires Known(sensor) && GainInRange(sensor, gain) && 0 < q <= exp && eff < x * gain + gain
    requires (q < x ==> 2 * (x - q) <= s && q + s <= exp) && (x <= q ==> eff <= q * gain)
    ensures q * Absorb(sensor, gain, eff, q) < exp * gain + 2 * gain
  {
    var g, a := AbsorbBounds(sensor, gain, eff, q);
    AddsNoLight(exp, gain, eff, x, q, s, g, a);
  }

  // Where the snap of x lands, seen from an exposure on the grid.
  lemma SnapFrom(x: nat, s: nat, expMax: nat, exp: nat) returns (q: nat)
    requires s > 0 && s <= exp <= expMax && OnGrid(exp, s) && x <= expMax
    ensures q == SnapInLoop(x, s, expMax) && q >= s
    ensures exp <= x ==> exp <= q && (q > x ==> 2 * (q - x) <= s && exp + s <= q)
    ensures x <= exp ==> q <= exp && (q < x ==> 2 * (x - q) <= s && q + s <= exp)
  {
    q := Snap(x, s, expMax);
    SnapsAgree(x, s, expMax);
    SnapInRange(x, s, expMax);
    GridIndex(exp, s);
    if exp <= x {
      SnapUp(x, s, expMax, exp, exp / s);
    }
    if x <= exp {
      SnapDown(x, s, expMax, exp, exp / s);
    }
  }

  lemma AdjustedRises(sensor: Sensor, step: nat, exp: nat, gain: nat, eff: nat)
    requires Known(sensor) && InRange(sensor, Setting(exp, gain)) && OnItsGrid(step, exp)
    requires exp * gain <= eff && 10 * eff <= 17 * (exp * gain)
    ensures exp * gain <= Light(Adjusted(sensor, step, gain, eff))
  {
    SplitRises(sensor, exp, gain, eff);
    if step > 1 {
      var x := Split(sensor, gain, eff).exp;
      var q := SnapFrom(x, step, sensor.expMax, exp);
      AbsorbRises(sensor, exp, gain, eff, x, q, step);
    }
  }

  lemma AdjustedFalls(sensor: Sensor, step: nat, exp: nat, gain: nat, eff: nat)
    requires Known(sensor) && InRange(sensor, Setting(exp, gain)) && OnItsGrid(step, exp)
    requires eff <= exp * gain && 3 * (exp * gain) < 5 * (eff + 1)
    ensures Light(Adjusted(sensor, step, gain, eff)) < exp * gain + if step > 1 then 2 * gain else 1
  {
    SplitFalls(sensor, exp, gain, eff);
    if step > 1 {
      var x := Split(sensor, gain, eff).exp;
      var q := SnapFrom(x, step, sensor.expMax, exp);
      if q != x {
        Distribute(x, gain);
        if x < q {
          Products(x + 1, q, gain, gain);
        }
        AbsorbFalls(sensor, exp, gain, eff, x, q, step);
      }
    }
  }

  // A scene darker than wanted is never given less light,
  lemma WantedRises(sensor: Sensor, step: nat, now: Setting, ratio: real)
    requires Known(sensor) && InRange(sensor, now) && 1.0 <= ratio <= 1.7 && OnItsGrid(step, now.exp)
    ensures Light(now) <= Light(Wanted(sensor, step, now, ratio))
  {
    EffectiveBounds(now.exp, now.gain, ratio);
    EffectiveFloor(now.exp * now.gain, ratio);
    AdjustedRises(sensor, step, now.exp, now.gain, Effective(now.exp, now.gain, ratio));
  }

  // and one brighter than wanted never more, but for the rounding of the gain on the grid.
  lemma WantedFalls(sensor: Sensor, step: nat, now: Setting, ratio: real)
    requires Known(sensor) && InRange(sensor, now) && 0.6 <= ratio <= 1.0 && OnItsGrid(step, now.exp)
    ensures Light(Wanted(sensor, step, now, ratio)) < Light(now) + if step > 1 then 2 * now.gain else 1
  {
    EffectiveBounds(now.exp, now.gain, ratio);
    EffectiveFloor(now.exp * now.gain, ratio);
    AdjustedFalls(sensor, step, now.exp, now.gain, Effective(now.exp, now.gain, ratio));
  }

  lemma GridIndex(exp: nat, s: nat)
    requires s > 0 && exp >= s && OnGrid(exp, s)
    ensures exp / s >= 1 && exp == exp / s * s
  {
    QuotientSteps(exp, s);
    MultipleOrder(exp / s, 0, s);
  }

  // A snap moves by less than one step unless the step is longer than what it is given.
  lemma SnapWithinStep(x: nat, s: nat, expMax: nat) returns (q: nat)
    requires 0 < s <= expMax && x <= expMax
    ensures q == SnapInLoop(x, s, expMax) && q > 0 && x < q + s && q <= x + s
  {
    q := SnapInLoop(x, s, expMax);
    QuotientSteps(x + s / 2, s);
    QuotientSteps(expMax, s);
  }

  lemma OffGridRises(exp: nat, gain: nat, eff: nat, q: nat, s: nat, g: nat, a: nat, margin: nat)
    requires 0 < q && eff + q / 2 < g * q + q && exp < q + s && exp * gain <= eff
    requires (g >= gain ==> gain <= a) && (g <= gain ==> g <= a) && margin == s * gain
    ensures exp * gain <= q * a + margin + q / 2
  {
    MulMonotone(0, s, gain);
    if g >= gain {
      MulMonotone(exp, q + s, gain);
      Spread(1, q, s, gain);
      MulMonotone(gain, a, q);
    } else {
      MulMonotone(g, a, q);
    }
  }

  lemma OffGridFalls(exp: nat, gain: nat, eff: nat, q: nat, s: nat, g: nat, a: nat, margin: nat)
    requires 0 < q && g * q <= eff + q / 2 && q <= exp + s && eff <= exp * gain
    requires (g >= gain ==> a <= g) && (g <= gain ==> a <= gain) && margin == s * gain
    ensures q * a <= exp * gain + margin + q / 2
  {
    MulMonotone(0, s, gain);
    if g >= gain {
      MulMonotone(a, g, q);
    } else {
      MulMonotone(q, exp + s, gain);
      Spread(1, exp, s, gain);
      MulMonotone(a, gain, q);
    }
  }

  lemma AdjustedRisesOff(sensor: Sensor, step: nat, exp: nat, gain: nat, eff: nat, margin: nat)
    requires Known(sensor) && InRange(sensor, Setting(exp, gain)) && 1 < step <= sensor.expMax && margin == step * gain
    requires exp * gain <= eff && 10 * eff <= 17 * (exp * gain)
    ensures var w := Adjusted(sensor, step, gain, eff); exp * gain <= Light(w) + margin + w.exp / 2
  {
    var plain := Split(sensor, gain, eff);
    SplitRises(sensor, exp, gain, eff);
    var q := SnapWithinStep(plain.exp, step, sensor.expMax);
    if q != plain.exp {
      var g, a := AbsorbBounds(sensor, gain, eff, q);
      OffGridRises(exp, gain, eff, q, step, g, a, margin);
    }
  }

  lemma AdjustedFallsOff(sensor: Sensor, step: nat, exp: nat, gain: nat, eff: nat, margin: nat)
    requires Known(sensor) && InRange(sensor, Setting(exp, gain)) && 1 < step <= sensor.expMax && margin == step * gain
    requires eff <= exp * gain && 3 * (exp * gain) < 5 * (eff + 1)
    ensures var w := Adjusted(sensor, step, gain, eff); Light(w) <= exp * gain + margin + w.exp / 2
  {
    var plain := Split(sensor, gain, eff);
    SplitFalls(sensor, exp, gain, eff);
    var q := SnapWithinStep(plain.exp, step, sensor.expMax);
    if q != plain.exp {
      var g, a := AbsorbBounds(sensor, gain, eff, q);
      OffGridFalls(exp, gain, eff, q, step, g, a, margin);
    }
  }

  // From an exposure off the grid the snap itself can take light away or add it, by less than one step.
  lemma WantedOffGrid(sensor: Sensor, step: nat, now: Setting, ratio: real, margin: nat)
    requires Known(sensor) && InRange(sensor, now) && 0.6 <= ratio <= 1.7 && 1 < step <= sensor.expMax
    requires margin == step * now.gain
    ensures var w := Wanted(sensor, step, now, ratio);
      && (1.0 <= ratio ==> Light(now) <= Light(w) + margin + w.exp / 2)
      && (ratio <= 1.0 ==> Light(w) <= Light(now) + margin + w.exp / 2)
  {
    EffectiveBounds(now.exp, now.gain, ratio);
    EffectiveFloor(now.exp * now.gain, ratio);
    if 1.0 <= ratio {
      AdjustedRisesOff(sensor, step, now.exp, now.gain, Effective(now.exp, now.gain, ratio), margin);
    }
    if ratio <= 1.0 {
      AdjustedFallsOff(sensor, step, now.exp, now.gain, Effective(now.exp, now.gain, ratio), margin);
    }
  }

  // Such a case: asked for a fifth more light, the snap gives less than before.
  lemma OffGridMayDarken()
    ensures Wanted(IMX179, 753, Setting(800, 1), 1.2) == Setting(753, 1)
  {
    assert Scaled(800, 1.2).Floor == 960;
  }

  // ---- How near the correction comes to what is asked for ----

  // The absorbing gain is the rounded one g, unless a cap or the end of the range is in the way.
  lemma AbsorbIsClose(sensor: Sensor, gain: nat, eff: nat, q: nat, g: nat)
    requires q > 0 && g == (eff + q / 2) / q
    ensures CapDown(gain) <= g || gain <= g ==>
              Absorb(sensor, gain, eff, q) <= g || Absorb(sensor, gain, eff, q) == sensor.gainMin
    ensures g <= CapUp(gain) ==> g <= Absorb(sensor, gain, eff, q) || Absorb(sensor, gain, eff, q) == GAIN_MAX
  {
  }

  // In the next two, `taken` is g * q and `byQ` is gain * q. From a grid point a snap upwards adds at most a third, and
  lemma CapDownIdle(gain: nat, eff: nat, q: nat, g: nat, taken: nat, byQ: nat)
    requires q > 0 && taken == g * q && byQ == gain * q && taken <= eff + q / 2 < taken + q
    requires 3 * byQ <= 4 * eff
    ensures CapDown(gain) <= g
  {
    if 4 * g + 2 <= 3 * gain {
      MulMonotone(4 * g + 2, 3 * gain, q);
      Spread(4, g, 2, q);
      Scale(3, gain, q);
    }
  }

  // one downwards takes away less than a third, both too little to reach the caps on the gain.
  lemma CapUpIdle(gain: nat, eff: nat, q: nat, g: nat, taken: nat, byQ: nat)
    requires q >= 3 && gain >= 1 && taken == g * q && byQ == gain * q && taken <= eff + q / 2
    requires 2 * eff + 2 <= 3 * byQ + gain
    ensures g <= CapUp(gain)
  {
    Surplus(gain, q);
    if 17 * gain + 1 <= 10 * g {
      MulMonotone(17 * gain + 1, 10 * g, q);
      Spread(17, gain, 1, q);
      Scale(10, g, q);
      MulMonotone(2, g, q);
    }
  }

  lemma Surplus(gain: nat, q: nat)
    requires gain >= 1 && q >= 3
    ensures gain >= 3 ==> 6 * q + 5 * gain <= 2 * (gain * q) + 15
    ensures gain <= 2 ==> gain * q == if gain == 1 then q else 2 * q
  {
    if gain >= 3 {
      MulMonotone(3, gain, 2 * q - 5);
      Spread(2, q, -5, gain);
    }
  }

  // A snap that lowers the exposure lowers it by less than half a step.
  lemma SnapLowersLess(x: nat, s: nat, expMax: nat, exp: nat)
    requires 1 < s <= exp <= expMax && OnGrid(exp, s) && x <= exp
    ensures var q := SnapInLoop(x, s, expMax); q < x ==> 2 * x < 2 * q + s && q >= 3
  {
    QuotientSteps(x + s / 2, s);
    var q := SnapFrom(x, s, expMax, exp);
    QuotientSteps(expMax, s);
    GridIndex(exp, s);
    MultipleOrder(expMax / s, exp / s, s);
  }

  lemma AdjustedRisesClose(sensor: Sensor, step: nat, exp: nat, gain: nat, eff: nat)
    requires Known(sensor) && InRange(sensor, Setting(exp, gain)) && step > 1 && OnItsGrid(step, exp)
    requires exp * gain <= eff && 10 * eff <= 17 * (exp * gain)
    ensures var w := Adjusted(sensor, step, gain, eff); Light(w) <= eff + w.exp / 2 || w.gain == sensor.gainMin
  {
    SplitRises(sensor, exp, gain, eff);
    var x := Split(sensor, gain, eff).exp;
    var q := SnapFrom(x, step, sensor.expMax, exp);
    if q != x {
      RisesClose(sensor, gain, eff, x, q);
    }
  }

  lemma RisesClose(sensor: Sensor, gain: nat, eff: nat, x: nat, q: nat)
    requires Known(sensor) && GainInRange(sensor, gain) && q > 0 && x * gain <= eff && 3 * q <= 4 * x
    ensures q * Absorb(sensor, gain, eff, q) <= eff + q / 2 || Absorb(sensor, gain, eff, q) == sensor.gainMin
  {
    var g, a := AbsorbBounds(sensor, gain, eff, q);
    GainNotRaised(gain, eff, x, q, g);
    AbsorbIsClose(sensor, gain, eff, q, g);
    NotMore(a, g, q);
  }

  lemma GainNotRaised(gain: nat, eff: nat, x: nat, q: nat, g: nat)
    requires q > 0 && x * gain <= eff && 3 * q <= 4 * x && g * q <= eff + q / 2 < g * q + q
    ensures CapDown(gain) <= g
  {
    MulMonotone(3 * q, 4 * x, gain);
    Scale(3, q, gain);
    Scale(4, x, gain);
    CapDownIdle(gain, eff, q, g, g * q, gain * q);
  }

  lemma NotMore(a: nat, g: nat, q: nat)
    ensures a <= g ==> q * a <= g * q
    ensures g <= a ==> g * q <= q * a
  {
  }

  lemma AdjustedFallsClose(sensor: Sensor, step: nat, exp: nat, gain: nat, eff: nat)
    requires Known(sensor) && InRange(sensor, Setting(exp, gain)) && step > 1 && OnItsGrid(step, exp)
    requires eff <= exp * gain && 3 * (exp * gain) < 5 * (eff + 1)
    ensures var w := Adjusted(sensor, step, gain, eff);
      eff < Light(w) + Max(w.exp, w.gain) || w.gain == GAIN_MAX
  {
    SplitFalls(sensor, exp, gain, eff);
    var x := Split(sensor, gain, eff).exp;
    var q := SnapFrom(x, step, sensor.expMax, exp);
    if q != x {
      SnapLowersLess(x, step, sensor.expMax, exp);
      FallsClose(sensor, gain, eff, x, q);
    }
  }

  lemma FallsClose(sensor: Sensor, gain: nat, eff: nat, x: nat, q: nat)
    requires Known(sensor) && GainInRange(sensor, gain) && q > 0 && eff < (x + 1) * gain
    requires x != q && (q < x ==> 2 * x + 1 <= 3 * q && q >= 3)
    ensures eff < q * Absorb(sensor, gain, eff, q) + q || Absorb(sensor, gain, eff, q) == GAIN_MAX
  {
    var g, a := AbsorbBounds(sensor, gain, eff, q);
    GainNotCapped(gain, eff, x, q, g);
    AbsorbIsClose(sensor, gain, eff, q, g);
    NotMore(a, g, q);
  }

  lemma GainNotCapped(gain: nat, eff: nat, x: nat, q: nat, g: nat)
    requires gain >= 1 && q > 0 && eff < (x + 1) * gain && g * q <= eff + q / 2
    requires x != q && (q < x ==> 2 * x + 1 <= 3 * q && q >= 3)
    ensures g <= CapUp(gain)
  {
    if q < x {
      MulMonotone(2 * (x + 1), 3 * q + 1, gain);
      Scale(2, x + 1, gain);
      Spread(3, q, 1, gain);
      CapUpIdle(gain, eff, q, g, g * q, gain * q);
    } else {
      MulMonotone(x + 1, q, gain);
      if gain < g {
        AtLeastOneStep(gain, g, q);
      }
    }
  }

  // On its grid, or without one, the correction stops short of what is asked for or meets it, to within the rounding,
  // unless the gain is at the end of its range.
  lemma WantedStopsShort(sensor: Sensor, step: nat, now: Setting, ratio: real)
    requires Known(sensor) && InRange(sensor, now) && 0.6 <= ratio <= 1.7 && OnItsGrid(step, now.exp)
    ensures var w := Wanted(sensor, step, now, ratio);
      && (1.0 <= ratio ==>
            || (Light(w) - Residual(step, w)) as real <= Scaled(Light(now), ratio)
            || (step > 1 && w.gain == sensor.gainMin))
      && (ratio <= 1.0 ==>
            || Scaled(Light(now), ratio) < (Light(w) + Rounding(w)) as real
            || (step > 1 && w.gain == GAIN_MAX))
  {
    var p, eff := now.exp * now.gain, Effective(now.exp, now.gain, ratio);
    EffectiveBounds(now.exp, now.gain, ratio);
    EffectiveFloor(p, ratio);
    if 1.0 <= ratio {
      SplitRises(sensor, now.exp, now.gain, eff);
      if step > 1 {
        AdjustedRisesClose(sensor, step, now.exp, now.gain, eff);
      }
    }
    if ratio <= 1.0 {
      SplitFalls(sensor, now.exp, now.gain, eff);
      if step > 1 {
        AdjustedFallsClose(sensor, step, now.exp, now.gain, eff);
      }
    }
  }

  // What the rounding of the gain may add on the grid, and what rounding down may take away.
  function Residual(step: nat, w: Setting): int {
    if step > 1 then w.exp / 2 else 0
  }

  function Rounding(w: Setting): int {
    Max(w.exp, w.gain) + 1
  }

  // At either end of the gain's range there is nothing left to absorb the snap, and the light goes beyond what was
  // asked for.
  lemma GridMayOvershoot()
    ensures Wanted(OV5693, 200, Setting(200, 16), 1.5) == Setting(400, 16) && Scaled(3200, 1.5) == 4800.0
  {
    assert Scaled(3200, 1.5).Floor == 4800;
  }

  lemma GridMayUndershoot()
    ensures Wanted(IMX179, 100, Setting(200, 240), 0.7) == Setting(100, 240) && Scaled(48000, 0.7) == 33600.0
  {
    assert Scaled(48000, 0.7).Floor == 33600;
  }

  lemma Reorder(p: real, ratio: real, l: real)
    ensures p * ratio * l == p * (ratio * l)
  {
  }

  lemma ScaledBy(a: real, b: real, l: real)
    requires l > 0.0
    ensures a <= b ==> a * l <= b * l
    ensures a < b ==> a * l < b * l
  {
    if a < b {
      PositiveProduct(b - a, l);
      assert (b - a) * l == b * l - a * l;
    }
  }

  // With luma proportional to the light: what was l under p units is at most, or more than, the target under `given`.
  predicate AtMostTarget(p: int, given: int, l: real, target: real) {
    given as real * l <= p as real * target
  }

  predicate MoreThanTarget(p: int, given: int, l: real, target: real) {
    p as real * target < given as real * l
  }

  lemma RatioCarries(p: nat, given: int, ratio: real, l: real, target: real)
    requires l > 0.0
    ensures given as real <= Scaled(p, ratio) && ratio * l <= target ==> AtMostTarget(p, given, l, target)
    ensures Scaled(p, ratio) < given as real && target <= ratio * l ==> MoreThanTarget(p, given, l, target)
  {
    Reorder(p as real, ratio, l);
    ScaledBy(given as real, Scaled(p, ratio), l);
    ScaledBy(Scaled(p, ratio), given as real, l);
    if ratio * l <= target {
      ProductNotNegative(p as real, target - ratio * l);
    }
    if target <= ratio * l {
      ProductNotNegative(p as real, ratio * l - target);
    }
  }

  // The correction does not go beyond what would bring l to the target.
  predicate TowardsTarget(ratio: real, l: real, target: real) {
    && 0.6 <= ratio <= 1.7
    && (l <= target ==> 1.0 <= ratio && ratio * l <= target) && (target <= l ==> ratio <= 1.0 && target <= ratio * l)
  }

  lemma WantedDoesNotOvershoot(sensor: Sensor, step: nat, now: Setting, w: Setting, ratio: real, l: real, target: real)
    requires Known(sensor) && InRange(sensor, now) && OnItsGrid(step, now.exp)
    requires l > 0.0 && TowardsTarget(ratio, l, target) && w == Wanted(sensor, step, now, ratio)
    ensures l <= target ==>
              || AtMostTarget(Light(now), Light(w) - Residual(step, w), l, target)
              || (step > 1 && w.gain == sensor.gainMin)
    ensures target <= l ==>
              || MoreThanTarget(Light(now), Light(w) + Rounding(w), l, target)
              || (step > 1 && w.gain == GAIN_MAX)
  {
    WantedStopsShort(sensor, step, now, ratio);
    RatioCarries(Light(now), Light(w) - Residual(step, w), ratio, l, target);
    RatioCarries(Light(now), Light(w) + Rounding(w), ratio, l, target);
  }

  // When one grid step does not fit, the loop asks for that one step whatever the scene.
  lemma WantedWhenStepTooLong(sensor: Sensor, step: nat, now: Setting, ratio: real)
    requires Known(sensor) && GainInRange(sensor, now.gain) && now.exp >= 0 && step > sensor.expMax
    requires 0.6 <= ratio <= 1.7
    ensures Wanted(sensor, step, now, ratio).exp == step
    ensures GainInRange(sensor, Wanted(sensor, step, now, ratio).gain)
    ensures Damped(now.gain, Wanted(sensor, step, now, ratio).gain)
  {
    EffectiveBounds(now.exp, now.gain, ratio);
    var eff := Effective(now.exp, now.gain, ratio);
    var plain := Split(sensor, now.gain, eff);
    SnapsAgree(plain.exp, step, sensor.expMax);
    SnapTooLong(plain.exp, step, sensor.expMax);
    AbsorbInRange(sensor, now.gain, eff, step);
  }

  // Whatever the scene, from any setting in range: the gain stays in range and moves by no more than the
  // damping factor; the exposure stays in range exactly when one grid step fits, and is on the grid.
  lemma WantedInRange(sensor: Sensor, step: nat, now: Setting, ratio: real)
    requires Known(sensor) && InRange(sensor, now) && 0.6 <= ratio <= 1.7
    requires step > 1 ==> sensor.expMin <= step
    ensures GainInRange(sensor, Wanted(sensor, step, now, ratio).gain)
    ensures Damped(now.gain, Wanted(sensor, step, now, ratio).gain)
    ensures InRange(sensor, Wanted(sensor, step, now, ratio)) <==> step <= 1 || step <= sensor.expMax
    ensures step > 1 ==> OnGrid(Wanted(sensor, step, now, ratio).exp, step)
  {
    EffectiveBounds(now.exp, now.gain, ratio);
    SplitInRange(sensor, now.exp, now.gain, Effective(now.exp, now.gain, ratio));
    if step > 1 {
      var eff := Effective(now.exp, now.gain, ratio);
      var plain := Split(sensor, now.gain, eff);
      SnapsAgree(plain.exp, step, sensor.expMax);
      SnapInRange(plain.exp, step, sensor.expMax);
      AbsorbInRange(sensor, now.gain, eff, Snap(plain.exp, step, sensor.expMax));
    }
  }
}

// The control as a value, and its runs of frames, correction passes and restarts.
module ExposureRuns {
  import opened MainsGrid
  import opened OrderStatistics
  import opened AutoExposure

  const HOLD_FRAMES: nat := 6
  const DELTAS: nat := 12

  // `snapped` says that the exposure in force was put on the mains grid, by the snap at freezing or by a pass of the
  // loop; `carried` is the exposure last put in force otherwise. The pipeline keeps neither.
  datatype Control = Control(
    front: bool,
    half: nat,            // mMainHalfNs
    exposure: int,
    gain: int,
    hold: nat,            // mAeHoldFrames
    prevTs: int,
    deltas: seq<int>,
    frozen: bool,         // mTimingFrozen
    period: nat,
    step: nat,            // mExposureStepLines
    snapped: bool,
    carried: int)

  function SensorOf(c: Control): Sensor {
    if c.front then OV5693 else IMX179
  }

  function Now(c: Control): Setting {
    Setting(c.exposure, c.gain)
  }

  function Seed(front: bool): Setting {
    if front then Setting(11904, 64) else Setting(800, 60)
  }

  predicate AllPlausible(deltas: seq<int>) {
    forall i | 0 <= i < |deltas| :: Plausible(deltas[i])
  }

  ghost predicate TimingOk(c: Control) {
    && (c.half == 0 || Mains(c.half))
    && |c.deltas| <= DELTAS && AllPlausible(c.deltas)
    && (c.frozen <==> |c.deltas| == DELTAS)
    && (c.frozen ==> Plausible(c.period) && c.period == MedianOf(c.deltas))
    && c.step == (if c.frozen && c.half > 0 then StepOf(SensorOf(c), c.period, c.half) else 0)
  }

  // One grid step fits the exposure range: decided by the frame period and the mains alone.
  predicate StepFits(c: Control) {
    c.step <= SensorOf(c).expMax
  }

  // Gain within the sensor's limits, and exposure too exactly as far as the grid lets it.
  predicate RangeOk(c: Control) {
    && GainInRange(SensorOf(c), c.gain) && SensorOf(c).expMin <= c.exposure
    && (StepFits(c) ==> c.exposure <= SensorOf(c).expMax)
  }

  predicate GridOk(c: Control) {
    if c.snapped then c.step > 0 && OnGrid(c.exposure, c.step) else c.exposure == c.carried
  }

  ghost predicate Inv(c: Control) {
    TimingOk(c) && RangeOk(c) && GridOk(c)
  }

  datatype Event =
    | Frame(ts: int, ok: bool)                                      // `ok`: the driver takes the snapped exposure
    | Pass(luma: real, target: real, gainOk: bool, expOk: bool)     // one pass of the loop
    | Restart

  // The timing freezes on the median delta; with anti-banding on, the exposure is snapped.
  ghost function Frozen(c: Control, ok: bool): Control
    requires |c.deltas| == DELTAS && Plausible(MedianOf(c.deltas))
  {
    var period := MedianOf(c.deltas);
    if c.half == 0 then c.(frozen := true, period := period)
    else
      var step := StepOf(SensorOf(c), period, c.half);
      StepIsPositive(SensorOf(c), period, c.half);
      var q := Snap(if c.exposure < 0 then 0 else c.exposure, step, SensorOf(c).expMax);
      var put := ok || q == c.exposure;
      c.(frozen := true, period := period, step := step, exposure := if put then q else c.exposure, snapped := put)
  }

  lemma StepIsPositive(sensor: Sensor, period: nat, half: nat)
    requires Known(sensor) && Plausible(period)
    ensures StepOf(sensor, period, half) > 0
  {
  }

  lemma MedianIsPlausible(deltas: seq<int>)
    requires deltas != [] && AllPlausible(deltas)
    ensures Plausible(MedianOf(deltas))
  {
    RankIsElement(deltas, |deltas| / 2, MedianOf(deltas));
  }

  ghost function AfterFrame(c: Control, ts: int, ok: bool): Control
    requires TimingOk(c)
  {
    var delta, seen := ts - c.prevTs, c.(prevTs := ts);
    if c.frozen || !Plausible(delta) then seen
    else
      var more := seen.(deltas := c.deltas + [delta]);
      if |more.deltas| < DELTAS then more
      else
        MedianIsPlausible(more.deltas);
        Frozen(more, ok)
  }

  // What a correction asks for is put in force as far as the driver takes it.
  function Corrected(c: Control, wanted: Setting, gainOk: bool, expOk: bool): Control {
    var put := expOk || wanted.exp == c.exposure;
    c.(gain := if gainOk then wanted.gain else c.gain,
       exposure := if put then wanted.exp else c.exposure,
       hold := if wanted == Now(c) then c.hold else HOLD_FRAMES,
       snapped := if put then c.step > 0 else c.snapped,
       carried := if put && c.step == 0 then wanted.exp else c.carried)
  }

  predicate InDeadband(luma: real, target: real) {
    target * 0.85 < luma < target * 1.15
  }

  predicate WithinFourfold(luma: real, target: real) {
    target * 0.25 < luma < target * 4.0
  }

  // Nothing in the deadband, nothing while holding unless the scene changed more than fourfold, the wanted setting
  // otherwise.
  function Passed(c: Control, deadband: bool, fourfold: bool, wanted: Setting, gainOk: bool, expOk: bool): Control {
    if deadband then c.(hold := 0)
    else
      var held := c.(hold := if c.hold > 0 then c.hold - 1 else 0);
      if c.hold > 0 && fourfold then held else Corrected(held, wanted, gainOk, expOk)
  }

  function AfterPass(c: Control, luma: real, target: real, gainOk: bool, expOk: bool): Control
    requires RangeOk(c)
  {
    Passed(c, InDeadband(luma, target), WithinFourfold(luma, target),
           Wanted(SensorOf(c), c.step, Now(c), Ratio(luma, target)), gainOk, expOk)
  }

  // Starting (or restarting) the stream seeds the loop; the frozen timing is kept and nothing is snapped.
  function AfterRestart(c: Control): Control {
    var seed := Seed(c.front);
    c.(exposure := seed.exp, gain := seed.gain, snapped := false, carried := seed.exp)
  }

  ghost function Next(c: Control, e: Event): Control
    requires TimingOk(c) && RangeOk(c)
  {
    match e
    case Frame(ts, ok) => AfterFrame(c, ts, ok)
    case Pass(luma, target, gainOk, expOk) => AfterPass(c, luma, target, gainOk, expOk)
    case Restart => AfterRestart(c)
  }

  lemma FrozenKeepsInv(c: Control, ok: bool)
    requires |c.deltas| == DELTAS && AllPlausible(c.deltas)
    requires !c.frozen && c.step == 0 && (c.half == 0 || Mains(c.half))
    requires RangeOk(c) && GridOk(c) && Plausible(MedianOf(c.deltas))
    ensures Inv(Frozen(c, ok))
    ensures c.half > 0 && ok ==> (InRange(SensorOf(c), Now(Frozen(c, ok))) <==> StepFits(Frozen(c, ok)))
  {
    if c.half > 0 {
      var step := StepOf(SensorOf(c), MedianOf(c.deltas), c.half);
      StepAtLeastMinimum(SensorOf(c), MedianOf(c.deltas), c.half);
      SnapInRange(c.exposure, step, SensorOf(c).expMax);
    }
  }

  lemma FrameKeepsInv(c: Control, ts: int, ok: bool)
    requires Inv(c)
    ensures Inv(AfterFrame(c, ts, ok))
  {
    var delta := ts - c.prevTs;
    if !c.frozen && Plausible(delta) && |c.deltas| + 1 == DELTAS {
      var more := c.(prevTs := ts, deltas := c.deltas + [delta]);
      MedianIsPlausible(more.deltas);
      FrozenKeepsInv(more, ok);
    }
  }

  // What a correction asks for, from any state of the control.
  lemma WantedOnGrid(c: Control, ratio: real)
    requires Inv(c) && 0.6 <= ratio <= 1.7
    ensures var w := Wanted(SensorOf(c), c.step, Now(c), ratio);
      && GainInRange(SensorOf(c), w.gain) && Damped(c.gain, w.gain) && SensorOf(c).expMin <= w.exp
      && (w.exp <= SensorOf(c).expMax <==> StepFits(c)) && (c.step > 0 ==> OnGrid(w.exp, c.step))
  {
    if c.step > 0 {
      StepAtLeastMinimum(SensorOf(c), c.period, c.half);
    }
    if StepFits(c) {
      WantedInRange(SensorOf(c), c.step, Now(c), ratio);
    } else {
      WantedWhenStepTooLong(SensorOf(c), c.step, Now(c), ratio);
      MultipleOnGrid(1, c.step);
    }
  }

  // ---- What a pass does for the picture ----

  // A pass acts outside the deadband, and while holding only on a change of more than fourfold.
  predicate Acts(c: Control, luma: real, target: real) {
    && (luma <= target * 0.85 || target * 1.15 <= luma)
    && (c.hold == 0 || luma <= target * 0.25 || target * 4.0 <= luma)
  }

  lemma PassActsExactly(c: Control, luma: real, target: real, gainOk: bool, expOk: bool)
    requires RangeOk(c)
    ensures
      var r := AfterPass(c, luma, target, gainOk, expOk);
      var w := Wanted(SensorOf(c), c.step, Now(c), Ratio(luma, target));
      && (!Acts(c, luma, target) ==> Now(r) == Now(c))
      && (Acts(c, luma, target) ==>
            && r.exposure == (if expOk then w.exp else c.exposure) && r.gain == (if gainOk then w.gain else c.gain)
            && (w != Now(c) ==> r.hold == 6))
  {
  }

  // A pass that acts and is obeyed moves the light towards the target: a scene that is too dark gets no less light, one
  // that is too bright no more, but for the rounding of the gain on the grid.
  lemma PassMovesTowardsTarget(c: Control, luma: real, target: real)
    requires Inv(c) && StepFits(c) && OnItsGrid(c.step, c.exposure) && target > 0.0 && Acts(c, luma, target)
    ensures var r := AfterPass(c, luma, target, true, true);
      && (luma <= target * 0.85 && Seen(luma) <= target ==> Light(Now(c)) <= Light(Now(r)))
      && (target * 1.15 <= luma ==> Light(Now(r)) < Light(Now(c)) + if c.step > 1 then 2 * c.gain else 1)
  {
    PassActsExactly(c, luma, target, true, true);
    RatioSide(luma, target);
    if luma <= target * 0.85 && Seen(luma) <= target {
      WantedRises(SensorOf(c), c.step, Now(c), Ratio(luma, target));
    }
    if target * 1.15 <= luma {
      WantedFalls(SensorOf(c), c.step, Now(c), Ratio(luma, target));
    }
  }

  // Where the picture's luma is proportional to the light, a pass does not overshoot unless the gain is at the end of
  // its range: a dark scene ends no brighter than the target but for the rounding of the gain on the grid, a bright
  // one darker than it by less than the rounding of one setting.
  lemma PassDoesNotOvershoot(c: Control, luma: real, target: real)
    requires Inv(c) && StepFits(c) && OnItsGrid(c.step, c.exposure) && target > 0.0 && Acts(c, luma, target)
    ensures var r := AfterPass(c, luma, target, true, true);
      && (luma <= target * 0.85 && Seen(luma) <= target ==>
            || AtMostTarget(Light(Now(c)), Light(Now(r)) - Residual(c.step, Now(r)), Seen(luma), target)
            || (c.step > 1 && r.gain == SensorOf(c).gainMin))
      && (target * 1.15 <= luma ==>
            || MoreThanTarget(Light(Now(c)), Light(Now(r)) + Rounding(Now(r)), Seen(luma), target)
            || (c.step > 1 && r.gain == GAIN_MAX))
  {
    var ratio := Ratio(luma, target);
    PassActsExactly(c, luma, target, true, true);
    RatioSide(luma, target);
    WantedDoesNotOvershoot(SensorOf(c), c.step, Now(c), Now(AfterPass(c, luma, target, true, true)), ratio, Seen(luma),
                           target);
  }

  // Six passes that see neither the target nor a fourfold change leave the setting alone after every change.
  predicate Holding(events: seq<Event>) {
    forall i | 0 <= i < |events| ::
      && events[i].Pass? && (events[i].luma <= events[i].target * 0.85 || events[i].target * 1.15 <= events[i].luma)
      && events[i].target * 0.25 < events[i].luma < events[i].target * 4.0
  }

  lemma {:induction false} HoldsSixPasses(c: Control, events: seq<Event>)
    requires Inv(c) && Holding(events) && |events| <= c.hold
    ensures var r := After(c, events); Now(r) == Now(c) && r.hold == c.hold - |events|
    decreases |events|
  {
    if events != [] {
      HoldsSixPasses(c, events[..|events| - 1]);
    }
  }

  lemma PassKeepsInv(c: Control, luma: real, target: real, gainOk: bool, expOk: bool)
    requires Inv(c)
    ensures Inv(AfterPass(c, luma, target, gainOk, expOk))
    ensures Damped(c.gain, AfterPass(c, luma, target, gainOk, expOk).gain)
  {
    var w := Wanted(SensorOf(c), c.step, Now(c), Ratio(luma, target));
    WantedOnGrid(c, Ratio(luma, target));
    PassedKeepsInv(c, InDeadband(luma, target), WithinFourfold(luma, target), w, gainOk, expOk);
  }

  predicate Fits(c: Control, w: Setting) {
    && GainInRange(SensorOf(c), w.gain) && Damped(c.gain, w.gain) && SensorOf(c).expMin <= w.exp
    && (StepFits(c) ==> w.exp <= SensorOf(c).expMax) && (c.step > 0 ==> OnGrid(w.exp, c.step))
  }

  lemma PassedKeepsInv(c: Control, deadband: bool, fourfold: bool, w: Setting, gainOk: bool, expOk: bool)
    requires Inv(c) && Fits(c, w)
    ensures Inv(Passed(c, deadband, fourfold, w, gainOk, expOk))
    ensures Damped(c.gain, Passed(c, deadband, fourfold, w, gainOk, expOk).gain)
  {
  }

  lemma RestartKeepsInv(c: Control)
    requires TimingOk(c)
    ensures Inv(AfterRestart(c))
  {
  }

  lemma NextKeepsInv(c: Control, e: Event)
    requires Inv(c)
    ensures Inv(Next(c, e))
  {
    match e
    case Frame(ts, ok) => FrameKeepsInv(c, ts, ok);
    case Pass(luma, target, gainOk, expOk) => PassKeepsInv(c, luma, target, gainOk, expOk);
    case Restart => RestartKeepsInv(c);
  }

  // The control when streaming first starts.
  function Start(front: bool, half: nat): Control {
    AfterRestart(Control(front, half, 0, 1, 0, 0, [], false, 0, 0, false, 0))
  }

  // The first pass that is due is not held back.
  lemma StartDoesNotHold(front: bool, half: nat, luma: real, target: real)
    ensures Acts(Start(front, half), luma, target) <==> luma <= target * 0.85 || target * 1.15 <= luma
  {
  }

  ghost function After(c: Control, events: seq<Event>): (r: Control)
    requires Inv(c)
    ensures Inv(r)
  {
    if events == [] then c
    else
      var n := |events| - 1;
      NextKeepsInv(After(c, events[..n]), events[n]);
      Next(After(c, events[..n]), events[n])
  }

  // Over any run of frames, passes and restarts, whatever the driver refuses: gain and exposure are in the sensor's
  // range, the exposure exactly as far as one step fits; and once the grid is known the exposure is on it if and only
  // if it was put there since the last restart, or the value carried over is itself a multiple of the step.
  lemma GridAfterAnyRun(front: bool, half: nat, events: seq<Event>)
    requires half == 0 || Mains(half)
    ensures Inv(Start(front, half))
    ensures var c := After(Start(front, half), events);
      && RangeOk(c)
      && (c.snapped ==> c.step > 0 && OnGrid(c.exposure, c.step))
      && (c.step > 0 ==> (OnGrid(c.exposure, c.step) <==> c.snapped || OnGrid(c.carried, c.step)))
  {
    RestartKeepsInv(Control(front, half, 0, 1, 0, 0, [], false, 0, 0, false, 0));
  }

  // ---- A restart off the grid ----

  // Twelve frames a period apart, the driver taking the snap.
  function Steady(period: nat, n: nat): seq<Event> {
    seq(n, i requires 0 <= i < n => Frame((i + 1) * period, true))
  }

  lemma {:induction false} AllSame(s: seq<int>, p: int)
    requires s != [] && forall i | 0 <= i < |s| :: s[i] == p
    ensures MedianOf(s) == p
  {
    NoneBelow(s, p);
    AllBelow(s, p + 1);
    RankIsUnique(s, |s| / 2, MedianOf(s), p);
  }

  lemma NextMultipleOf(n: nat, p: nat)
    ensures (n + 1) * p - n * p == p
  {
  }

  lemma {:induction false} SteadyFrames(c: Control, period: nat, n: nat)
    requires Inv(c) && c.deltas == [] && !c.frozen && c.prevTs == 0 && Plausible(period) && n < DELTAS
    ensures var r := After(c, Steady(period, n));
      r == c.(prevTs := n * period, deltas := seq(n, i => period))
  {
    if n == 0 {
      assert c.(prevTs := 0, deltas := []) == c;
      assert seq(0, i => period) == [];
    } else {
      SteadyFrames(c, period, n - 1);
      NextMultipleOf(n - 1, period);
      assert Steady(period, n)[..n - 1] == Steady(period, n - 1);
      assert seq(n - 1, i => period) + [period] == seq(n, i => period);
    }
  }

  // A steady stream freezes its timing at the twelfth frame and is snapped; restarted, it is back on its seed while
  // the grid stays, so it is on the grid exactly when the step divides the seed.
  lemma RestartAfterFreeze(front: bool, half: nat, period: nat)
    requires Mains(half) && Plausible(period)
    ensures Inv(Start(front, half))
    ensures var frozen := After(Start(front, half), Steady(period, DELTAS));
      frozen.step == StepOf(SensorOf(frozen), period, half) > 0 && frozen.snapped
    ensures var c := After(Start(front, half), Steady(period, DELTAS) + [Restart]);
      && c.step > 0 && c.step == StepOf(SensorOf(c), period, half) && Now(c) == Seed(front)
      && (OnGrid(c.exposure, c.step) <==> OnGrid(Seed(front).exp, c.step))
  {
    var c0, n := Start(front, half), DELTAS - 1;
    RestartKeepsInv(Control(front, half, 0, 1, 0, 0, [], false, 0, 0, false, 0));
    SteadyFrames(c0, period, n);
    NextMultipleOf(n, period);
    assert Steady(period, DELTAS)[..n] == Steady(period, n);
    assert Steady(period, DELTAS)[n] == Frame((n + 1) * period, true);
    var full := seq(n, i => period) + [period];
    AllSame(full, period);
    StepIsPositive(SensorOf(c0), period, half);
    assert (Steady(period, DELTAS) + [Restart])[..DELTAS] == Steady(period, DELTAS);
  }

  // At 30 frames a second and 50 Hz the step is 753 and the seed 800: this run ends off the grid.
  lemma RestartOffGrid()
    ensures Inv(Start(false, HALF_50))
    ensures var c := After(Start(false, HALF_50), Steady(33_333_333, DELTAS) + [Restart]);
      c.step == 753 && c.exposure == 800 && !OnGrid(c.exposure, c.step)
  {
    RestartAfterFreeze(false, HALF_50, 33_333_333);
    assert StepOf(IMX179, 33_333_333, HALF_50) == 753;
  }

  // A frame period shorter than the mains half-period makes the step longer than the frame: the snapped exposure
  // leaves the sensor's range.
  lemma ShortFramesLeaveRange()
    ensures Plausible(9_000_000) && StepOf(IMX179, 9_000_000, HALF_50) > IMX179.expMax
    ensures Snap(800, StepOf(IMX179, 9_000_000, HALF_50), IMX179.expMax) > IMX179.expMax
  {
    SnapInRange(800, StepOf(IMX179, 9_000_000, HALF_50), IMX179.expMax);
  }
}

// The same control as the pipeline object runs it.
module AutoExposureLoop {
  import opened MainsGrid
  import opened OrderStatistics
  import opened AutoExposure
  import opened ExposureRuns

  // The part of the pipeline object that times frames and drives exposure and gain.
  class ExposureControl {
    const half: nat
    const front: bool
    var exposure: int
    var gain: int
    var hold: nat
    var prevTs: int
    var deltas: seq<int>
    var frozen: bool
    var period: nat
    var step: nat
    ghost var snapped: bool
    ghost var carried: int

    ghost function Model(): Control
      reads this
    {
      Control(front, half, exposure, gain, hold, prevTs, deltas, frozen, period, step, snapped, carried)
    }

    ghost predicate Valid()
      reads this
    {
      Inv(Model())
    }

    // What configure() leaves, before streaming starts.
    constructor (front: bool, half: nat)
      requires half == 0 || Mains(half)
      ensures TimingOk(Model()) && AfterRestart(Model()) == Start(front, half)
    {
      this.front, this.half := front, half;
      exposure, gain, hold, prevTs, deltas, frozen, period, step := 0, 1, 0, 0, [], false, 0, 0;
      snapped, carried := false, 0;
    }

    method StartStreaming()
      requires TimingOk(Model())
      modifies this`exposure, this`gain, this`snapped, this`carried
      ensures Model() == AfterRestart(old(Model())) && Valid()
    {
      RestartKeepsInv(Model());
      if front {
        exposure, gain := 11904, 64;
      } else {
        exposure, gain := 800, 60;
      }
      snapped, carried := false, exposure;
    }

    // The driver takes a new exposure, or the old one stays in force.
    method SetExposure(value: int, ok: bool)
      modifies this`exposure
      ensures exposure == if ok then value else old(exposure)
    {
      if ok {
        exposure := value;
      }
    }

    method SetGain(value: int, ok: bool)
      modifies this`gain
      ensures gain == if ok then value else old(gain)
    {
      if ok {
        gain := value;
      }
    }

    // Fixes the frame period to the median delta and, with anti-banding on, the grid step; snaps the exposure.
    method Freeze(ok: bool)
      requires |deltas| == DELTAS && Plausible(MedianOf(deltas)) && exposure >= 0
      modifies this`period, this`frozen, this`step, this`exposure, this`snapped
      ensures Model() == Frozen(old(Model()), ok)
    {
      var sensor := if front then OV5693 else IMX179;
      period := Median(deltas);
      frozen := true;
      if half > 0 {
        StepIsPositive(sensor, period, half);
        step := StepOf(sensor, period, half);
        var q := Snap(exposure, step, sensor.expMax);
        snapped := ok || q == exposure;
        if q != exposure {
          SetExposure(q, ok);
        }
      }
    }

    // Every frame's timestamp; the first 12 plausible deltas freeze the timing.
    method RecordFrame(ts: int, ok: bool)
      requires Valid()
      modifies this`prevTs, this`deltas, this`period, this`frozen, this`step, this`exposure, this`snapped
      ensures Model() == AfterFrame(old(Model()), ts, ok) && Valid()
    {
      FrameKeepsInv(Model(), ts, ok);
      var delta := ts - prevTs;
      prevTs := ts;
      if !frozen && Plausible(delta) {
        deltas := deltas + [delta];
        if |deltas| >= DELTAS {
          MedianIsPlausible(deltas);
          Freeze(ok);
        }
      }
    }

    // The correction itself: gain first, then exposure, each kept as it was if the driver refuses it.
    method Correct(wanted: Setting, gainOk: bool, expOk: bool)
      modifies this`exposure, this`gain, this`hold, this`snapped, this`carried
      ensures Model() == Corrected(old(Model()), wanted, gainOk, expOk)
    {
      var now := Setting(exposure, gain);
      if expOk || wanted.exp == exposure {
        snapped := step > 0;
        if step == 0 {
          carried := wanted.exp;
        }
      }
      if wanted != now {
        if wanted.gain != gain {
          SetGain(wanted.gain, gainOk);
        }
        if wanted.exp != exposure {
          SetExposure(wanted.exp, expOk);
        }
        hold := HOLD_FRAMES;
      }
    }

    // One pass of the loop over a frame of mean luma `luma`.
    method DoAutoExposure(luma: real, target: real, gainOk: bool, expOk: bool)
      requires Valid()
      modifies this`exposure, this`gain, this`hold, this`snapped, this`carried
      ensures Model() == AfterPass(old(Model()), luma, target, gainOk, expOk)
      ensures Valid() && Damped(old(gain), gain)
    {
      PassKeepsInv(Model(), luma, target, gainOk, expOk);
      var sensor := if front then OV5693 else IMX179;
      var wanted := Wanted(sensor, step, Setting(exposure, gain), Ratio(luma, target));
      Follow(InDeadband(luma, target), WithinFourfold(luma, target), wanted, gainOk, expOk);
    }

    method Follow(deadband: bool, fourfold: bool, wanted: Setting, gainOk: bool, expOk: bool)
      modifies this`exposure, this`gain, this`hold, this`snapped, this`carried
      ensures Model() == Passed(old(Model()), deadband, fourfold, wanted, gainOk, expOk)
    {
      if deadband {
        hold := 0;
        return;
      }
      if hold > 0 {
        hold := hold - 1;
        if fourfold {
          return;
        }
      }
      Correct(wanted, gainOk, expOk);
    }
  }
}

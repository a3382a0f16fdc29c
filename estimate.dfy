/**
 * The reload-time estimator of the dashboard page (www/tf-dash.js).
 *
 * The dashboard file is regenerated every time the wall clock rolls over to
 * a new second. If the drop of the measured frame rate below 60 fps is all
 * caused by the regeneration, the new file is ready (60 - fps) / 60 of the
 * way into the next second. That fraction, in milliseconds, is the offset;
 * it is clamped to [75, 750] ms. The page reloads at the start of the next
 * whole second plus the offset.
 *
 * Times are milliseconds. `now` is a `nat` (the epoch clock is taken to
 * be non-negative); `fps` and everything derived from it are exact reals.
 */
module ReloadEstimate {

  /** The nominal frame rate the estimate measures the drop against. */
  const NominalFps: real := 60.0
  /** Milliseconds in a second: the period at which the file is regenerated. */
  const Second: nat := 1000
  /** The smallest offset into the next second that is ever used. */
  const MinOffset: real := 75.0
  /** The largest offset into the next second that is ever used. */
  const MaxOffset: real := 750.0

  /** Math.min on reals (no NaN here). */
  function Min(a: real, b: real): (r: real)
    ensures r <= a && r <= b
    ensures r == a || r == b
  {
    if a <= b then a else b
  }

  /** Math.max on reals (no NaN here). */
  function Max(a: real, b: real): (r: real)
    ensures r >= a && r >= b
    ensures r == a || r == b
  {
    if a >= b then a else b
  }

  /** The unclamped estimate: the fraction of a second lost below 60 fps, in ms. */
  function RawOffset(fps: real): (r: real)
    ensures 0.0 <= fps <= NominalFps ==> 0.0 <= r <= Second as real
    ensures r == 0.0 <==> fps == NominalFps
  {
    (NominalFps - fps) * Second as real / NominalFps
  }

  /** The offset into the next second, clamped to [MinOffset, MaxOffset]. */
  function Offset(fps: real): (r: real)
    ensures MinOffset <= r <= MaxOffset
    ensures r < Second as real
  {
    Min(MaxOffset, Max(MinOffset, RawOffset(fps)))
  }

  /** The start of the second `now` falls in: 1000 * Math.floor(now / 1000). */
  function SecondStart(now: nat): (r: nat)
    ensures r <= now < r + Second
    ensures r % Second == 0
  {
    Second * (now / Second)
  }

  /** The reload target: the start of the next whole second plus the offset. */
  function Target(now: nat, fps: real): (t: real)
    ensures t > now as real
    ensures (t / Second as real).Floor == now / Second + 1
  {
    (SecondStart(now) + Second) as real + Offset(fps)
  }

  /** The timer delay handed to setTimeout: target - now. */
  function Delay(now: nat, fps: real): (d: real)
    ensures Offset(fps) + 1.0 <= d <= Offset(fps) + Second as real
    ensures d > 0.0
  {
    Target(now, fps) - now as real
  }

  /** The offset is the upper bound exactly when fps is at most 15. */
  lemma OffsetIsMaxIff(fps: real)
    ensures Offset(fps) == MaxOffset <==> fps <= 15.0
  {
  }

  /** The offset is the lower bound exactly when fps is at least 55.5. */
  lemma OffsetIsMinIff(fps: real)
    ensures Offset(fps) == MinOffset <==> fps >= 55.5
  {
  }

  /**
   * An independent, piecewise description of the offset: saturated at 750 ms
   * for fps <= 15, at 75 ms for fps >= 55.5, and the linear estimate between.
   */
  function PiecewiseOffset(fps: real): (r: real)
  {
    if fps <= 15.0 then 750.0
    else if fps >= 55.5 then 75.0
    else 1000.0 - fps * 50.0 / 3.0
  }

  /** The clamped formula and the piecewise description agree everywhere. */
  lemma OffsetIsPiecewise(fps: real)
    ensures Offset(fps) == PiecewiseOffset(fps)
    ensures 15.0 < fps < 55.5 ==> Offset(fps) == RawOffset(fps)
  {
  }

  /** The worked example: at 30 fps the offset is half a second. */
  lemma OffsetAtThirtyFps()
    ensures Offset(30.0) == 500.0
  {
  }

  /** The target lies 1000 + offset ms after the start of the current second. */
  lemma TargetFromSecondStart(now: nat, fps: real)
    ensures Target(now, fps) - SecondStart(now) as real == Second as real + Offset(fps)
  {
  }

  /** Overall bounds on the delay, whatever the frame rate and the clock. */
  lemma DelayRange(now: nat, fps: real)
    ensures 76.0 <= Delay(now, fps) <= 1750.0
    ensures now as real + Delay(now, fps) == Target(now, fps)
  {
  }
}

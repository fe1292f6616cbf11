/**
 * The timed "black hole eats the Earth" state machine of the Dark Hole Shader
 * scene, as values.
 *
 * `SceneState` gathers every variable the state machine reads or writes: the
 * module-level run variables (`blackHoleAnimating`, `blackHoleTime`,
 * `earthEaten`), the accumulated shader clock `time`, the two shader uniforms
 * `u_time` and `u_strength`, the Earth mesh's `visible` flag and uniform scale,
 * and the overlay mesh's `visible` flag. Each operation of the source is a
 * function from the old state to the new one; the class in BlackHoleScene
 * updates its fields in place and is proved to follow these functions.
 *
 * Times, strength and scale are exact reals: IEEE rounding is not modelled.
 */
module BlackHole {

  /** `BH_IN_DURATION`: seconds the black hole takes to swallow the Earth. */
  const InDuration: real := 2.0
  /** `BH_HOLD_DURATION`: seconds the eaten Earth stays hidden before the run ends. */
  const HoldDuration: real := 0.5
  /** Floor of the Earth's scale while it shrinks (`Math.max(s, 0.001)`). */
  const MinScale: real := 0.001

  datatype SceneState = SceneState(
    animating: bool,       // blackHoleAnimating
    elapsed: real,         // blackHoleTime: seconds since the last start
    eaten: bool,           // earthEaten
    time: real,            // the global shader clock `time`
    uTime: real,           // blackHoleUniforms.u_time.value
    strength: real,        // blackHoleUniforms.u_strength.value
    earthVisible: bool,    // earth.visible
    earthScale: real,      // earth.scale, set uniformly on all three axes
    overlayVisible: bool   // blackHoleMesh.visible
  )

  function Max(a: real, b: real): (r: real)
    ensures r >= a && r >= b && (r == a || r == b)
  {
    if a >= b then a else b
  }

  /** The Earth's scale after `e` seconds into a run, while it is visible and shrinking. */
  function ShrunkScale(e: real): (r: real)
    requires 0.0 <= e <= InDuration
    ensures MinScale <= r <= 1.0
    ensures e == 0.0 ==> r == 1.0
  {
    Max(1.0 - e / InDuration, MinScale)
  }

  /**
   * The facts every state reachable from the initial one keeps (for
   * non-negative frame deltas): the uniforms stay in range, the Earth is hidden
   * whenever it has been eaten, and the phase of a run is determined by
   * `elapsed`.
   */
  ghost predicate Inv(s: SceneState) {
    && 0.0 <= s.strength <= 1.0
    && MinScale <= s.earthScale <= 1.0
    && 0.0 <= s.elapsed
    && 0.0 <= s.time
    && s.uTime == s.time
    && (s.eaten ==> !s.earthVisible)
    // a run in progress always shows the overlay and has not passed the hold window
    && (s.animating ==> s.overlayVisible && s.elapsed <= InDuration + HoldDuration)
    // consuming window: strength tracks elapsed time
    && (s.animating && s.elapsed <= InDuration ==> s.strength == s.elapsed / InDuration)
    // hold window: the Earth has been eaten and the strength is pinned at 1
    && (s.animating && InDuration < s.elapsed ==> s.strength == 1.0 && s.eaten)
    // a finished run leaves the overlay on at full strength
    && (s.overlayVisible && !s.animating ==> s.strength == 1.0 && InDuration + HoldDuration < s.elapsed)
    // with the overlay off, the scene is exactly as after a reset
    && (!s.overlayVisible ==>
          && !s.animating && !s.eaten && s.elapsed == 0.0 && s.strength == 0.0
          && s.earthVisible && s.earthScale == 1.0)
  }

  /**
   * The state when the script has loaded: all run variables, `time` and both
   * uniforms are zero or false, the overlay starts switched off, and the Earth
   * mesh has the renderer's default visibility and unit scale.
   */
  function Initial(): (r: SceneState)
    ensures Inv(r)
    ensures !r.animating && !r.eaten && !r.overlayVisible && r.earthVisible
    ensures r.time == 0.0 && r.uTime == 0.0 && r.strength == 0.0 && r.earthScale == 1.0
  {
    SceneState(false, 0.0, false, 0.0, 0.0, 0.0, true, 1.0, false)
  }

  /**
   * `startBlackHole`: begins a run from any state. It does not restore the
   * Earth's visibility or scale, so a run started after an earlier one hid the
   * Earth keeps it hidden.
   */
  function AfterStart(s: SceneState): (r: SceneState)
    ensures r.animating && r.elapsed == 0.0 && !r.eaten && r.overlayVisible && r.strength == 0.0
    ensures r.earthVisible == s.earthVisible && r.earthScale == s.earthScale
    ensures r.time == s.time && r.uTime == s.uTime
    ensures Inv(s) ==> Inv(r)
  {
    s.(animating := true, elapsed := 0.0, eaten := false, overlayVisible := true, strength := 0.0)
  }

  /**
   * `resetEarth`: from any state, shows the Earth at unit scale, stops the run
   * and switches the overlay off. The shader clock is left alone.
   */
  function AfterReset(s: SceneState): (r: SceneState)
    ensures r.earthVisible && r.earthScale == 1.0
    ensures !r.animating && !r.eaten && r.elapsed == 0.0 && r.strength == 0.0 && !r.overlayVisible
    ensures r.time == s.time && r.uTime == s.uTime
    ensures Inv(s) ==> Inv(r)
  {
    s.(earthVisible := true, earthScale := 1.0, animating := false, elapsed := 0.0,
       eaten := false, strength := 0.0, overlayVisible := false)
  }

  /**
   * `updateBlackHole(delta)`: one frame of a run. Nothing happens unless a run
   * is in progress. Otherwise `elapsed` grows by `delta` and one of three
   * branches is taken by comparing the new `elapsed` with 2.0 and 2.5:
   * shrinking the Earth (only while it is visible) and raising the strength;
   * hiding the Earth once; or ending the run. Negative deltas are not clamped.
   */
  function AfterUpdate(s: SceneState, delta: real): (r: SceneState)
    // a state with no run in progress is left exactly as it is
    ensures !s.animating ==> r == s
    // the shader clock, the overlay and the run's clock are the only other parts
    ensures r.time == s.time && r.uTime == s.uTime && r.overlayVisible == s.overlayVisible
    ensures s.animating ==> r.elapsed == s.elapsed + delta
    // an update never shows the Earth, and never clears `eaten`
    ensures r.earthVisible ==> s.earthVisible
    ensures s.eaten ==> r.eaten
    // the Earth is hidden exactly when a run first reaches the hold window ...
    ensures (s.earthVisible && !r.earthVisible) <==>
            (s.animating && !s.eaten && s.earthVisible &&
             InDuration < s.elapsed + delta <= InDuration + HoldDuration)
    // ... and `eaten` is set in the same step, only in that window
    ensures (!s.eaten && r.eaten) ==>
            !r.earthVisible && s.animating && InDuration < s.elapsed + delta <= InDuration + HoldDuration
    // the scale is written only while the Earth is visible in the consuming window
    ensures r.earthScale != s.earthScale ==>
            s.animating && s.earthVisible && s.elapsed + delta <= InDuration
    // the strength follows the elapsed time in the consuming window, then is pinned at 1
    ensures s.animating && s.elapsed + delta <= InDuration ==>
            r.strength == (s.elapsed + delta) / InDuration && r.animating
    ensures s.animating && InDuration < s.elapsed + delta ==> r.strength == 1.0
    // the run ends exactly when elapsed passes the hold window
    ensures s.animating ==> (r.animating <==> s.elapsed + delta <= InDuration + HoldDuration)
    ensures Inv(s) && 0.0 <= delta ==> Inv(r)
  {
    if !s.animating then s
    else
      var e := s.elapsed + delta;
      if e <= InDuration then
        var p := e / InDuration;
        s.(elapsed := e,
           earthScale := if s.earthVisible then Max(1.0 - p, MinScale) else s.earthScale,
           strength := p)
      else if e <= InDuration + HoldDuration then
        s.(elapsed := e, strength := 1.0,
           earthVisible := if s.eaten then s.earthVisible else false,
           eaten := true)
      else
        s.(elapsed := e, animating := false, strength := 1.0)
  }

  /**
   * One iteration of `animationLoop`: the shader clock advances by `delta`,
   * is published to `u_time`, and only then is the run updated.
   */
  function AfterFrame(s: SceneState, delta: real): (r: SceneState)
    ensures r.time == s.time + delta && r.uTime == r.time
    ensures 0.0 <= delta ==> s.time <= r.time
    // the clock is accumulated apart from the run: every other field is as after one update
    ensures r.(time := s.time, uTime := s.uTime) == AfterUpdate(s, delta)
    ensures Inv(s) && 0.0 <= delta ==> Inv(r)
  {
    var t := s.time + delta;
    AfterUpdate(s.(time := t, uTime := t), delta)
  }

  /** What can happen between two renders: a button press or a frame with its clock delta. */
  datatype Event = StartPressed | ResetPressed | FrameTick(delta: real)

  /** A button press runs its handler; a frame runs one `animationLoop` iteration. */
  function Apply(s: SceneState, ev: Event): (r: SceneState)
    // only frames move the shader clock
    ensures r.time == s.time + (if ev.FrameTick? then ev.delta else 0.0)
    ensures ev.StartPressed? ==> r.animating && r.earthVisible == s.earthVisible
    ensures ev.ResetPressed? ==> !r.animating && r.earthVisible && !r.overlayVisible
    ensures Inv(s) && (ev.FrameTick? ==> 0.0 <= ev.delta) ==> Inv(r)
  {
    match ev
    case StartPressed => AfterStart(s)
    case ResetPressed => AfterReset(s)
    case FrameTick(d) => AfterFrame(s, d)
  }

  /**
   * The state after a sequence of events, applied in order. Whatever the
   * presses, the shader clock ends up advanced by exactly the frame deltas.
   */
  function Run(s: SceneState, evs: seq<Event>): (r: SceneState)
    ensures r.time == s.time + FrameTime(evs)
    decreases |evs|
  {
    if evs == [] then s else Run(Apply(s, evs[0]), evs[1..])
  }

  /** The total of the frame deltas in `evs`; presses take no time. */
  function FrameTime(evs: seq<Event>): real
    decreases |evs|
  {
    if evs == [] then 0.0
    else (if evs[0].FrameTick? then evs[0].delta else 0.0) + FrameTime(evs[1..])
  }

  /** Every frame delta in `evs` is non-negative, as `clock.getDelta()` delivers. */
  predicate NonNegativeFrames(evs: seq<Event>) {
    forall i :: 0 <= i < |evs| && evs[i].FrameTick? ==> 0.0 <= evs[i].delta
  }

  /** The state after a sequence of `updateBlackHole` calls with no button press between them. */
  function Updates(s: SceneState, ds: seq<real>): SceneState
    decreases |ds|
  {
    if ds == [] then s else Updates(AfterUpdate(s, ds[0]), ds[1..])
  }

  function Sum(ds: seq<real>): real
    decreases |ds|
  {
    if ds == [] then 0.0 else ds[0] + Sum(ds[1..])
  }

  predicate NonNegative(ds: seq<real>) {
    forall i :: 0 <= i < |ds| ==> 0.0 <= ds[i]
  }

  /** How many of the updates in `ds` turn the Earth from visible to hidden. */
  function HideCount(s: SceneState, ds: seq<real>): nat
    decreases |ds|
  {
    if ds == [] then 0
    else
      var t := AfterUpdate(s, ds[0]);
      (if s.earthVisible && !t.earthVisible then 1 else 0) + HideCount(t, ds[1..])
  }
}

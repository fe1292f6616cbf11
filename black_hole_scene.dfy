/**
 * The scene's mutable state as it is in the script: one object whose fields
 * are the module-level run variables, the shader clock, the two uniforms and
 * the flags and scale of the Earth and overlay meshes. Each method updates the
 * fields step by step as the script does, and is proved to produce the state
 * the matching function of BlackHole describes.
 */
module BlackHoleScene {
  import opened BlackHole

  class Scene {
    var animating: bool
    var elapsed: real
    var eaten: bool
    var time: real
    var uTime: real
    var strength: real
    var earthVisible: bool
    var earthScale: real
    var overlayVisible: bool

    /** The fields as a value. */
    function State(): SceneState
      reads this
    {
      SceneState(animating, elapsed, eaten, time, uTime, strength, earthVisible, earthScale, overlayVisible)
    }

    ghost predicate Valid()
      reads this
    {
      Inv(State())
    }

    /** The state once the script has loaded and built the scene. */
    constructor ()
      ensures Valid() && State() == Initial()
    {
      time := 0.0;
      animating, elapsed, eaten := false, 0.0, false;
      uTime, strength := 0.0, 0.0;
      earthVisible, earthScale := true, 1.0;
      overlayVisible := false;
    }

    /** `startBlackHole`, run by the "Agujero negro" button. */
    method Start()
      requires Valid()
      modifies this
      ensures Valid() && State() == AfterStart(old(State()))
    {
      animating := true;
      elapsed := 0.0;
      eaten := false;

      overlayVisible := true;
      strength := 0.0;
    }

    /** `resetEarth`, run by the "Reset" button. */
    method Reset()
      requires Valid()
      modifies this
      ensures Valid() && State() == AfterReset(old(State()))
    {
      earthVisible := true;
      earthScale := 1.0;

      animating := false;
      elapsed := 0.0;
      eaten := false;
      strength := 0.0;
      overlayVisible := false;
    }

    /** `updateBlackHole(delta)`; the delta comes from the frame clock and is never negative. */
    method Update(delta: real)
      requires Valid() && 0.0 <= delta
      modifies this
      ensures Valid() && State() == AfterUpdate(old(State()), delta)
    {
      if !animating {
        return;
      }

      elapsed := elapsed + delta;

      if elapsed <= InDuration {
        var p := elapsed / InDuration;
        var s := 1.0 - p;
        if earthVisible {
          earthScale := Max(s, MinScale);
        }
        strength := p;
      } else if elapsed <= InDuration + HoldDuration {
        strength := 1.0;
        if !eaten {
          earthVisible := false;
          eaten := true;
        }
      } else {
        animating := false;
        strength := 1.0;
      }
    }

    /**
     * The state-machine part of one `animationLoop` iteration: accumulate the
     * shader clock, publish it, then update the run.
     */
    method AnimationLoop(delta: real)
      requires Valid() && 0.0 <= delta
      modifies this
      ensures Valid() && State() == AfterFrame(old(State()), delta)
      ensures old(time) <= time && uTime == time
    {
      time := time + delta;
      uTime := time;
      Update(delta);
    }
  }

  /**
   * The scene driven by its buttons and frames: after any such sequence the
   * fields are the state `Run` gives, which keeps the invariant.
   */
  method Drive(scene: Scene, evs: seq<Event>)
    requires scene.Valid() && NonNegativeFrames(evs)
    modifies scene
    ensures scene.Valid() && scene.State() == Run(old(scene.State()), evs)
  {
    var i := 0;
    while i < |evs|
      invariant 0 <= i <= |evs|
      invariant scene.Valid()
      invariant Run(old(scene.State()), evs) == Run(scene.State(), evs[i..])
    {
      assert evs[i..] == [evs[i]] + evs[i + 1..];
      match evs[i] {
        case StartPressed => scene.Start();
        case ResetPressed => scene.Reset();
        case FrameTick(d) => scene.AnimationLoop(d);
      }
      i := i + 1;
    }
  }
}

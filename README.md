# Black hole state machine of the Dark Hole Shader scene

The scene shows the Earth in front of a star field. Pressing the "Agujero negro" button starts a timed run. Over the first 2.0 seconds the Earth shrinks while a full-screen black hole overlay fades in through the shader uniform `u_strength`. Once the run is past 2.0 seconds and no later than 2.5 seconds, the Earth is hidden ("eaten"). Past 2.5 seconds the run stops, and the overlay stays on at full strength. "Reset" brings the Earth back at unit scale and switches the overlay off. Every frame also advances a global clock `time`, which is published to the shader as `u_time`.

This project models that state machine, from `src/script_13_texturabasica.js`, in three modules:

- `BlackHole` (`black_hole.dfy`) holds the state as a value. `SceneState` has one field per variable the machine touches: `blackHoleAnimating`, `blackHoleTime`, `earthEaten`, `time`, `u_time`, `u_strength`, `earth.visible`, the Earth's uniform scale and `blackHoleMesh.visible`. Each operation is a function from the old state to the new one: `AfterStart`, `AfterReset`, `AfterUpdate` and `AfterFrame`. `Inv` is the invariant that every reachable state keeps. `Run` applies a sequence of button presses and frames in order.
- `BlackHoleProperties` (`black_hole_properties.dfy`) holds the lemmas that span several operations or frames.
- `BlackHoleScene` (`black_hole_scene.dfy`) holds the class `Scene`. Its fields are the script's variables, and its methods update them step by step as the script does. Each method is proved to produce the state given by the matching `BlackHole` function, and to keep `Inv`.

The model follows the code as written, including these points of its behaviour:

- The three branches of `updateBlackHole` are chosen by `<=` comparisons of the cumulative `blackHoleTime` against 2.0 and 2.5. At exactly 2.0 the code is still in the shrinking branch, with strength 1 and scale 0.001, and the Earth still visible. It is hidden only by a frame that lands in the window from just above 2.0 up to 2.5.
- `blackHoleTime` counts from the last start. Nothing is carried from one phase to the next. There is no phase enumeration: the phase comes from `blackHoleAnimating`, the overlay flag and `blackHoleTime`.
- Negative deltas are not clamped. The functions accept any delta and do what the code does with it. The invariant, the lemmas and the class methods assume `delta >= 0`, which is what the frame clock (`clock.getDelta()`) delivers.
- `startBlackHole` restores neither the Earth's visibility nor its scale. If a run is started after an earlier run hid the Earth, the Earth stays hidden throughout, and its scale is never written (`RestartKeepsEarthHidden`).
- `startBlackHole` also keeps the scale of an Earth that an earlier run shrank without hiding it (possible after a long frame). The first update of the new run then writes the scale for the new, smaller elapsed time, which *raises* it (0.5 to 0.9 in `RestartRaisesScale`). So the scale is non-increasing only from the first update of a run onwards (`ConsumingMonotone`). The strength is non-decreasing over the whole shrinking window, from the start itself (`ConsumingStrengthMonotone`).
- A single frame that jumps from at most 2.0 to past 2.5 skips the hiding branch, so that run never hides the Earth (`LongFrameNeverHidesEarth`).

## Model

| member | source | states |
|---|---|---|
| `BlackHole.Max` | src/script_13_texturabasica.js:230 | `Math.max`: the result is at least each argument and equal to one of them |
| `BlackHole.ShrunkScale` | src/script_13_texturabasica.js:226-230 | the scale `max(1 - elapsed/2.0, 0.001)` lies in [0.001, 1] for elapsed in [0, 2.0], and is 1 at elapsed 0 |
| `BlackHole.Inv` | src/script_13_texturabasica.js:16-27 | the invariant of reachable states: strength in [0, 1], scale in [0.001, 1], `u_time` equal to `time`, an eaten Earth hidden, strength equal to elapsed/2.0 during the shrinking window and 1 after it, and the reset state whenever the overlay is off |
| `BlackHole.Initial` | src/script_13_texturabasica.js:16-23 | at load, no run is in progress, the clock, both uniforms and the run time are zero, the overlay is off, the Earth is visible at unit scale, and the invariant holds |
| `BlackHole.AfterStart` | src/script_13_texturabasica.js:199-206 | starting gives a running state at time zero, not eaten, with the overlay on and strength 0; the Earth's visibility and scale and the clock are unchanged; the invariant is kept |
| `BlackHole.AfterReset` | src/script_13_texturabasica.js:208-218 | from any state, the Earth is visible at scale 1, no run is in progress, not eaten, run time 0, strength 0, the overlay is off; the clock is unchanged; the invariant is kept |
| `BlackHole.AfterUpdate` | src/script_13_texturabasica.js:220-243 | with no run in progress nothing changes; otherwise the run time grows by delta; the Earth is hidden exactly when it is visible, not yet eaten and the new run time is in (2.0, 2.5], and `eaten` is set in that same step; an update never shows the Earth or clears `eaten`; the scale changes only for a visible Earth in the shrinking window; strength is elapsed/2 there and 1 after it; the run stops exactly when the run time passes 2.5; clock and overlay are untouched; the invariant is kept for delta >= 0 |
| `BlackHole.AfterFrame` | src/script_13_texturabasica.js:256-264 | a frame advances the clock by delta and publishes it to `u_time`, so the clock never decreases for delta >= 0; every other field (elapsed, eaten, strength, the Earth's flag and scale, the overlay) is exactly as after one update of the old state, so the clock is accumulated independently of the run; the invariant is kept |
| `BlackHole.Apply` | src/script_13_texturabasica.js:169-179 | a press runs its handler and a frame one loop iteration: only frames move the clock, by their delta; a start leaves a running state with the Earth's visibility unchanged; a reset leaves a stopped state with the Earth visible and the overlay off; the invariant is kept for non-negative frames |
| `BlackHole.Run` | src/script_13_texturabasica.js:256-264 | after any sequence of presses and frames the clock has advanced by exactly the sum of the frame deltas |
| `BlackHoleProperties.ResetIdempotent` | src/script_13_texturabasica.js:208-218 | resetting twice gives the same state as resetting once |
| `BlackHoleProperties.RunKeepsInv` | src/script_13_texturabasica.js:199-264 | every sequence of presses and non-negative frames keeps the invariant |
| `BlackHoleProperties.ReachableInRange` | src/script_13_texturabasica.js:199-264 | in every state reachable from load, strength is in [0, 1], scale in [0.001, 1] and `u_time` equals `time` |
| `BlackHoleProperties.RunTimeMonotone` | src/script_13_texturabasica.js:259-262 | the clock never decreases over any sequence of presses and non-negative frames, whatever the state of the run, and neither does `u_time` |
| `BlackHoleProperties.ConsumingStep` | src/script_13_texturabasica.js:225-232 | an update that stays in the shrinking window sets strength to elapsed/2.0 within [0, 1] and scales a visible Earth to max(1 - p, 0.001) within [0.001, 1]; a hidden Earth keeps its scale and visibility |
| `BlackHoleProperties.ConsumingMonotone` | src/script_13_texturabasica.js:223-232 | from a state whose visible Earth has already been scaled by an update of this run, successive non-negative updates inside the shrinking window never lower the strength or raise the scale |
| `BlackHoleProperties.ConsumingStrengthMonotone` | src/script_13_texturabasica.js:223-232 | from any running state in the shrinking window, even right after a start and with the Earth hidden, successive non-negative updates inside the window keep the run going, never lower the strength (it stays elapsed/2.0), leave the Earth's visibility as it was, and leave a hidden Earth's scale untouched |
| `BlackHoleProperties.HiddenAtMostOnce` | src/script_13_texturabasica.js:233-242 | between presses, updates hide the Earth at most once, and never if it is already hidden; if it ends hidden after starting visible, exactly one update hid it |
| `BlackHoleProperties.StoppedAbsorbs` | src/script_13_texturabasica.js:221 | a state with no run in progress is left unchanged by any sequence of updates |
| `BlackHoleProperties.FinishedStaysFinished` | src/script_13_texturabasica.js:239-242 | an update that takes the run time past 2.5 stops the run at strength 1 with the overlay on and the Earth's visibility unchanged, and later updates change nothing |
| `BlackHoleProperties.LongFrameNeverHidesEarth` | src/script_13_texturabasica.js:225-242 | start, then frames of 1.0 and 2.0: the run ends at strength 1 with the Earth still visible at scale 0.5 and never eaten |
| `BlackHoleProperties.RestartKeepsEarthHidden` | src/script_13_texturabasica.js:199-206 | starting again after a run hid the Earth leaves it hidden, and its scale unwritten, while the strength animates again |
| `BlackHoleProperties.RestartRaisesScale` | src/script_13_texturabasica.js:199-232 | a start after a run that left the Earth visible at scale 0.5 keeps that scale, and the next frame of 0.2 raises it to 0.9 |
| `BlackHoleProperties.FullRunScenario` | src/script_13_texturabasica.js:199-264 | frames of 1.0, 1.0, 0.5 and 1000.0 after a start, then a reset: strength 0.5 and scale 0.5; then strength 1 and scale 0.001 with the Earth still visible; then hidden and eaten; then stopped with the overlay on; then back to the reset state with the clock at 1002.5 |
| `BlackHoleScene.Scene.constructor` | src/script_13_texturabasica.js:146-148 | the fields start as the load state, with the overlay off |
| `BlackHoleScene.Scene.Start` | src/script_13_texturabasica.js:199-206 | updating the fields in place gives the state described by `AfterStart` and keeps the invariant |
| `BlackHoleScene.Scene.Reset` | src/script_13_texturabasica.js:208-218 | updating the fields in place gives the state described by `AfterReset` and keeps the invariant |
| `BlackHoleScene.Scene.Update` | src/script_13_texturabasica.js:220-243 | the early return and the three branches, applied to the fields, give the state described by `AfterUpdate` and keep the invariant |
| `BlackHoleScene.Scene.AnimationLoop` | src/script_13_texturabasica.js:256-264 | the clock grows and is published before the update; the result is the state described by `AfterFrame` |
| `BlackHoleScene.Drive` | src/script_13_texturabasica.js:169-179 | driving the scene with button presses and non-negative frames puts its fields in the state `Run` describes, keeping the invariant |

## Left out

- Scene, camera, renderer, texture loading and orbit controls (lines 86-153): calls into Three.js with no logic of their own. The Earth's initial visibility (true) and unit scale are Three.js mesh defaults, stated in `Initial` and in the constructor.
- The info text, `createButtons` and `styleButton` (lines 87-98, 155-195): user-interface plumbing. `Drive` keeps only the fact that the two buttons call `startBlackHole` and `resetEarth`.
- The vertex and fragment shaders (lines 31-73): GPU floating-point code that only consumes the uniforms.
- `onWindowResize` and `u_resolution` (lines 245-254): window input/output that does not interact with the state machine.
- `requestAnimationFrame` and `renderer.render` (lines 257, 269): host scheduling and rendering. One frame is an explicit `AnimationLoop(delta)` call, with the delta passed in as a parameter instead of read from the clock.
- The rotations of the Earth and the star field (lines 266-267) and `earth.position.set(0, 0, 0)` (line 211): constant increments and constant writes that nothing in the state machine reads.
- IEEE floating-point rounding: times, strength and scale are exact reals.

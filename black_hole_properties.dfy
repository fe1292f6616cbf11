/**
 * Properties of the black hole state machine that relate several operations
 * or several frames: the invariant along any sequence of button presses and
 * frames, the monotone shader clock, the consuming window, the single hiding
 * of the Earth per run, the absorption of a finished run, and the quirks of
 * the start button (hidden Earth kept hidden, shrunk Earth grown back) and of
 * a long frame.
 */
module BlackHoleProperties {
  import opened BlackHole

  lemma NonNegativeFramesTail(evs: seq<Event>)
    requires NonNegativeFrames(evs) && evs != []
    ensures (evs[0].FrameTick? ==> 0.0 <= evs[0].delta) && NonNegativeFrames(evs[1..])
  {
    assert evs[0].FrameTick? ==> 0.0 <= evs[0].delta;
    forall i | 0 <= i < |evs[1..]| && evs[1..][i].FrameTick?
      ensures 0.0 <= evs[1..][i].delta
    {
      assert evs[1..][i] == evs[i + 1];
    }
  }

  lemma NonNegativeTail(ds: seq<real>)
    requires NonNegative(ds) && ds != []
    ensures 0.0 <= ds[0] && NonNegative(ds[1..])
  {
    assert 0.0 <= ds[0];
    forall i | 0 <= i < |ds[1..]| ensures 0.0 <= ds[1..][i] {
      assert ds[1..][i] == ds[i + 1];
    }
  }

  /** Pressing reset twice leaves the scene as pressing it once. */
  lemma ResetIdempotent(s: SceneState)
    ensures AfterReset(AfterReset(s)) == AfterReset(s)
  {
  }

  /** Every state reachable from `s` by presses and non-negative frames keeps the invariant. */
  lemma {:induction false} RunKeepsInv(s: SceneState, evs: seq<Event>)
    requires Inv(s) && NonNegativeFrames(evs)
    ensures Inv(Run(s, evs))
    decreases |evs|
  {
    if evs != [] {
      NonNegativeFramesTail(evs);
      RunKeepsInv(Apply(s, evs[0]), evs[1..]);
    }
  }

  /** In particular, strength and scale stay in range in every state the scene can reach. */
  lemma ReachableInRange(evs: seq<Event>)
    requires NonNegativeFrames(evs)
    ensures var r := Run(Initial(), evs);
            0.0 <= r.strength <= 1.0 && MinScale <= r.earthScale <= 1.0 && r.uTime == r.time
  {
    RunKeepsInv(Initial(), evs);
  }

  /**
   * The shader clock never goes back, whatever the presses and whatever the
   * state of the run, as long as frame deltas are non-negative; nor does
   * `u_time`, which is published from it.
   */
  lemma RunTimeMonotone(s: SceneState, evs: seq<Event>)
    requires NonNegativeFrames(evs)
    ensures s.time <= Run(s, evs).time
    ensures Inv(s) ==> s.uTime <= Run(s, evs).uTime
  {
    FrameTimeNonNegative(evs);
    if Inv(s) {
      RunKeepsInv(s, evs);
    }
  }

  lemma {:induction false} FrameTimeNonNegative(evs: seq<Event>)
    requires NonNegativeFrames(evs)
    ensures 0.0 <= FrameTime(evs)
    decreases |evs|
  {
    if evs != [] {
      NonNegativeFramesTail(evs);
      FrameTimeNonNegative(evs[1..]);
    }
  }

  /**
   * One update inside the consuming window (new elapsed at most 2.0): the
   * strength is elapsed / 2.0 within [0, 1], and a visible Earth is scaled to
   * max(1 - strength, 0.001) within [0.001, 1]; a hidden Earth keeps its scale.
   */
  lemma ConsumingStep(s: SceneState, delta: real)
    requires Inv(s) && s.animating && 0.0 <= delta && s.elapsed + delta <= InDuration
    ensures var r := AfterUpdate(s, delta);
            && r.animating && r.earthVisible == s.earthVisible
            && r.strength == r.elapsed / InDuration && 0.0 <= r.strength <= 1.0
            && (s.earthVisible ==> r.earthScale == ShrunkScale(r.elapsed))
            && (!s.earthVisible ==> r.earthScale == s.earthScale)
  {
  }

  /**
   * A run in the consuming window whose last update has already scaled the
   * visible Earth.
   */
  ghost predicate Shrinking(s: SceneState) {
    && Inv(s) && s.animating && s.earthVisible && s.elapsed <= InDuration
    && s.earthScale == ShrunkScale(s.elapsed)
  }

  /**
   * Across successive updates with non-negative deltas that stay in the
   * consuming window, the strength never decreases and the scale never
   * increases; the stretch ends in the consuming window still.
   */
  lemma {:induction false} ConsumingMonotone(s: SceneState, ds: seq<real>)
    requires Shrinking(s) && NonNegative(ds) && s.elapsed + Sum(ds) <= InDuration
    ensures var r := Updates(s, ds);
            Shrinking(r) && s.strength <= r.strength && r.earthScale <= s.earthScale
    decreases |ds|
  {
    if ds != [] {
      NonNegativeTail(ds);
      SumNonNegative(ds[1..]);
      var t := AfterUpdate(s, ds[0]);
      ConsumingStep(s, ds[0]);
      assert Shrinking(t);
      ConsumingMonotone(t, ds[1..]);
    }
  }

  /**
   * Successive non-negative updates that stay in the consuming window never
   * lower the strength, whether or not the Earth is visible; the run keeps
   * going, and a hidden Earth stays hidden with its scale untouched.
   */
  lemma {:induction false} ConsumingStrengthMonotone(s: SceneState, ds: seq<real>)
    requires Inv(s) && s.animating && NonNegative(ds) && s.elapsed + Sum(ds) <= InDuration
    ensures var r := Updates(s, ds);
            && Inv(r) && r.animating && r.elapsed == s.elapsed + Sum(ds)
            && s.strength <= r.strength && r.strength == r.elapsed / InDuration
            && r.earthVisible == s.earthVisible
            && (!s.earthVisible ==> r.earthScale == s.earthScale)
    decreases |ds|
  {
    if ds != [] {
      NonNegativeTail(ds);
      SumNonNegative(ds[1..]);
      ConsumingStep(s, ds[0]);
      ConsumingStrengthMonotone(AfterUpdate(s, ds[0]), ds[1..]);
    }
  }

  lemma {:induction false} SumNonNegative(ds: seq<real>)
    requires NonNegative(ds)
    ensures 0.0 <= Sum(ds)
    decreases |ds|
  {
    if ds != [] {
      NonNegativeTail(ds);
      SumNonNegative(ds[1..]);
    }
  }

  /**
   * Between two presses the Earth is hidden at most once, and not at all if
   * it is already hidden: no update ever shows it again.
   */
  lemma {:induction false} HiddenAtMostOnce(s: SceneState, ds: seq<real>)
    ensures HideCount(s, ds) <= if s.earthVisible then 1 else 0
    ensures !Updates(s, ds).earthVisible ==> HideCount(s, ds) == (if s.earthVisible then 1 else 0)
    ensures Updates(s, ds).earthVisible ==> HideCount(s, ds) == 0 && s.earthVisible
    decreases |ds|
  {
    if ds != [] {
      HiddenAtMostOnce(AfterUpdate(s, ds[0]), ds[1..]);
    }
  }

  /**
   * A run that has ended (or never started) absorbs every further update, of
   * any size, until the next press.
   */
  lemma {:induction false} StoppedAbsorbs(s: SceneState, ds: seq<real>)
    requires !s.animating
    ensures Updates(s, ds) == s
    decreases |ds|
  {
    if ds != [] {
      StoppedAbsorbs(AfterUpdate(s, ds[0]), ds[1..]);
    }
  }

  /**
   * Once elapsed passes 2.5 the run has stopped with full strength, and it
   * stays so, overlay on and Earth unchanged, under further updates.
   */
  lemma FinishedStaysFinished(s: SceneState, delta: real, ds: seq<real>)
    requires Inv(s) && s.animating && 0.0 <= delta && InDuration + HoldDuration < s.elapsed + delta
    ensures var r := AfterUpdate(s, delta);
            && !r.animating && r.strength == 1.0 && r.overlayVisible
            && r.earthVisible == s.earthVisible
            && Updates(r, ds) == r
  {
    StoppedAbsorbs(AfterUpdate(s, delta), ds);
  }

  /**
   * A single frame that jumps from the consuming window past 2.5 skips the
   * hold branch: the run ends with the Earth never hidden.
   */
  lemma LongFrameNeverHidesEarth()
    ensures var r := Run(Initial(), [StartPressed, FrameTick(1.0), FrameTick(2.0)]);
            && !r.animating && r.strength == 1.0 && r.earthVisible && !r.eaten
            && r.earthScale == 0.5 && r.time == 3.0
  {
  }

  /**
   * Starting again after a run hid the Earth keeps it hidden for the whole new
   * run: its scale is not written, although the strength animates again.
   */
  lemma RestartKeepsEarthHidden()
    ensures var r := Run(Initial(), [StartPressed, FrameTick(1.0), FrameTick(1.0), FrameTick(0.5),
                                     FrameTick(1.0), StartPressed, FrameTick(1.0)]);
            && r.animating && r.strength == 0.5 && !r.earthVisible && r.earthScale == MinScale
  {
  }

  /**
   * Starting again after a run that left the Earth visible and shrunk keeps
   * the shrunk scale, and the first update of the new run raises it: the
   * scale is non-increasing only from the first update of a run on.
   */
  lemma RestartRaisesScale()
    ensures var s := Run(Initial(), [StartPressed, FrameTick(1.0), FrameTick(2.0), StartPressed]);
            var r := AfterFrame(s, 0.2);
            && s.animating && s.earthVisible && s.earthScale == 0.5
            && r.animating && r.earthVisible && r.earthScale == 0.9 && s.earthScale < r.earthScale
  {
  }

  /**
   * A full run with frames of 1.0, 1.0, 0.5 and 1000.0 seconds, then a reset.
   * At exactly 2.0 the code is still consuming (the comparison is `<=`), so
   * the Earth is hidden only by the frame that reaches 2.5.
   */
  lemma FullRunScenario()
    ensures var s1 := Run(Initial(), [StartPressed, FrameTick(1.0)]);
            s1.strength == 0.5 && s1.earthScale == 0.5 && s1.earthVisible && s1.animating
    ensures var s2 := Run(Initial(), [StartPressed, FrameTick(1.0), FrameTick(1.0)]);
            s2.strength == 1.0 && s2.earthScale == MinScale && s2.earthVisible && s2.animating
    ensures var s3 := Run(Initial(), [StartPressed, FrameTick(1.0), FrameTick(1.0), FrameTick(0.5)]);
            s3.strength == 1.0 && !s3.earthVisible && s3.eaten && s3.animating
    ensures var s4 := Run(Initial(), [StartPressed, FrameTick(1.0), FrameTick(1.0), FrameTick(0.5),
                                      FrameTick(1000.0)]);
            s4.strength == 1.0 && !s4.earthVisible && !s4.animating && s4.overlayVisible
            && s4.time == 1002.5 && s4.uTime == 1002.5
    ensures var s5 := Run(Initial(), [StartPressed, FrameTick(1.0), FrameTick(1.0), FrameTick(0.5),
                                      FrameTick(1000.0), ResetPressed]);
            s5.strength == 0.0 && s5.earthVisible && s5.earthScale == 1.0 && !s5.overlayVisible
            && !s5.animating && s5.time == 1002.5
  {
  }
}

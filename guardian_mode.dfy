/**
 * Guardian mode (blindaid/modes/guardian/guardian_mode.py), the default
 * safety mode: motion switches it between sitting (idle) and walking
 * (active), the depth map is examined on every 10th frame when idle and
 * every 30th when active, and "Stop" is said when more than a tenth of the
 * centre-bottom of the depth map is close, at most once per two seconds.
 *
 * The pixel work is foreign: the frame difference of `_detect_motion` is an
 * input (`changed`, its "more than 1% of pixels changed" verdict), and the
 * depth model's output is an input (`DepthOutcome`). `now` is the clock.
 */
module Guardian {
  import Cooldown

  datatype GuardianState = Idle | Active

  /** The state as the info line names it. */
  function StateName(s: GuardianState): string
  {
    match s
    case Idle => "Sitting (Idle)"
    case Active => "Walking (Active)"
  }

  /** A normalised depth map (larger is nearer): `h` rows of `w` values. */
  datatype DepthMap = DepthMap(w: nat, h: nat, rows: seq<seq<real>>)

  predicate WellFormed(m: DepthMap)
  {
    |m.rows| == m.h && forall r :: 0 <= r < |m.rows| ==> |m.rows[r]| == m.w
  }

  /** What the depth step yields: the analyzer cannot be built, the depth
      model raises, or it returns a map. */
  datatype DepthOutcome = AnalyzerFailed | ComputeFailed | Computed(depthMap: DepthMap)

  // ---------------------------------------------------------------------------
  // Motion and the state machine
  // ---------------------------------------------------------------------------

  /** The motion state after one frame, given whether this frame moved and
      the last motion time before it. */
  function NextState(s: GuardianState, moving: bool, now: real, lastMotion: real, idleTimeout: real): GuardianState
  {
    if moving then Active
    else if s == Active && now - lastMotion > idleTimeout then Idle
    else s
  }

  /** The last motion time after one frame. */
  function NextMotionTime(moving: bool, now: real, lastMotion: real): real
  {
    if moving then now else lastMotion
  }

  /** What the state means. Motion always makes the mode walk and records
      the time. Walking after a frame means motion within `idleTimeout` of
      that frame; sitting means this frame did not move. Walking turns into
      sitting only after more than `idleTimeout` without motion. */
  lemma StateTracksMotion(s: GuardianState, moving: bool, now: real, lastMotion: real, idleTimeout: real)
    requires idleTimeout >= 0.0
    ensures moving ==> NextState(s, moving, now, lastMotion, idleTimeout) == Active && NextMotionTime(moving, now, lastMotion) == now
    ensures NextState(s, moving, now, lastMotion, idleTimeout) == Active ==>
      now - NextMotionTime(moving, now, lastMotion) <= idleTimeout
      || (s == Active && !moving && now - lastMotion <= idleTimeout)
    ensures NextState(s, moving, now, lastMotion, idleTimeout) == Idle ==> !moving
    ensures s == Active && NextState(s, moving, now, lastMotion, idleTimeout) == Idle ==> now - lastMotion > idleTimeout
    ensures s == Idle && !moving ==> NextState(s, moving, now, lastMotion, idleTimeout) == Idle
  {
  }

  /** The state and last motion time after a run of frames `(now, moving)`. */
  function RunStates(s: GuardianState, lastMotion: real, frames: seq<(real, bool)>, idleTimeout: real): (GuardianState, real)
    decreases |frames|
  {
    if frames == [] then (s, lastMotion)
    else
      var before := RunStates(s, lastMotion, frames[..|frames| - 1], idleTimeout);
      var f := frames[|frames| - 1];
      (NextState(before.0, f.1, f.0, before.1, idleTimeout), NextMotionTime(f.1, f.0, before.1))
  }

  /** Over any run starting idle: the mode walks at the end only if some frame
      of the run moved, and then the last motion time is that of the last
      frame that moved. */
  lemma {:induction false} WalkingNeedsMotion(lastMotion: real, frames: seq<(real, bool)>, idleTimeout: real)
    ensures RunStates(Idle, lastMotion, frames, idleTimeout).0 == Active ==>
      exists k :: 0 <= k < |frames| && frames[k].1 && RunStates(Idle, lastMotion, frames, idleTimeout).1 == frames[k].0
        && forall j :: k < j < |frames| ==> !frames[j].1
    decreases |frames|
  {
    if frames != [] {
      var init := frames[..|frames| - 1];
      var f := frames[|frames| - 1];
      var before := RunStates(Idle, lastMotion, init, idleTimeout);
      WalkingNeedsMotion(lastMotion, init, idleTimeout);
      if RunStates(Idle, lastMotion, frames, idleTimeout).0 == Active {
        if f.1 {
          assert frames[|frames| - 1].1;
        } else {
          assert before.0 == Active;
          var k :| 0 <= k < |init| && init[k].1 && before.1 == init[k].0
            && forall j :: k < j < |init| ==> !init[j].1;
          assert frames[k] == init[k];
          forall j | k < j < |frames|
            ensures !frames[j].1
          {
            if j < |init| { assert frames[j] == init[j]; }
          }
        }
      }
    }
  }

  /** The depth-processing interval: every 30th frame when walking, every
      10th when sitting. */
  function Interval(s: GuardianState): (n: nat)
    ensures n > 0
    ensures s == Active <==> n == 30
  {
    if s == Active then 30 else 10
  }

  // ---------------------------------------------------------------------------
  // The safety check
  // ---------------------------------------------------------------------------

  /** The number of values above 0.75 in columns `c0 .. c1` of `row`. */
  function CountRow(row: seq<real>, c0: nat, c1: nat): (n: nat)
    requires c0 <= c1 <= |row|
    ensures n <= c1 - c0
    decreases c1 - c0
  {
    if c0 == c1 then 0
    else CountRow(row, c0, c1 - 1) + (if row[c1 - 1] > 0.75 then 1 else 0)
  }

  /** `np.sum(roi > 0.75)` for the region of rows `r0 .. r1`, columns `c0 .. c1`. */
  function CountClose(m: DepthMap, r0: nat, r1: nat, c0: nat, c1: nat): (n: nat)
    requires WellFormed(m) && r0 <= r1 <= m.h && c0 <= c1 <= m.w
    ensures n <= (r1 - r0) * (c1 - c0)
    decreases r1 - r0
  {
    if r0 == r1 then 0
    else CountClose(m, r0, r1 - 1, c0, c1) + CountRow(m.rows[r1 - 1], c0, c1)
  }

  /** The region of interest `depth_map[int(h/2):h, int(w/4):int(3*w/4)]`:
      the bottom half of the rows and the middle half of the columns. */
  function RoiRowStart(h: nat): nat { h / 2 }
  function RoiColStart(w: nat): nat { w / 4 }
  function RoiColEnd(w: nat): nat { 3 * w / 4 }

  function RoiSize(w: nat, h: nat): nat
  {
    (h - RoiRowStart(h)) * (RoiColEnd(w) - RoiColStart(w))
  }

  /** The region is inside the map, and is empty only on a map with no rows
      or fewer than two columns. */
  lemma RoiEmptyOnlyForTinyMaps(w: nat, h: nat)
    ensures RoiRowStart(h) <= h && RoiColStart(w) <= RoiColEnd(w) <= w
    ensures RoiSize(w, h) > 0 <==> h >= 1 && w >= 2
  {
    var rows := h - RoiRowStart(h);
    var cols := RoiColEnd(w) - RoiColStart(w);
    assert rows > 0 <==> h >= 1;
    assert cols > 0 <==> w >= 2;
    if rows > 0 && cols > 0 {
      assert rows * cols > 0;
    }
  }

  /** The danger test `close / size > 0.1` on a non-empty region. */
  predicate Danger(close: nat, size: nat)
  {
    size > 0 && (close as real) / (size as real) > 0.1
  }

  /** Danger means that more than a tenth of the region is close, counted
      exactly: `10 * close > size`. */
  lemma DangerIsMoreThanATenth(close: nat, size: nat)
    requires size > 0
    ensures Danger(close, size) <==> 10 * close > size
  {
    var c := close as real;
    var z := size as real;
    QuotientAbove(c, z, 0.1);
    assert 10 * close > size <==> c > 0.1 * z;
  }

  lemma QuotientAbove(c: real, z: real, t: real)
    requires z > 0.0
    ensures c / z > t <==> c > t * z
  {
    var r := c / z;
    assert r * z == c;
    if r > t {
      MulPositive(r - t, z);
    }
  }

  lemma MulPositive(a: real, b: real)
    requires a > 0.0 && b > 0.0
    ensures a * b > 0.0
  {
  }

  /** Whether a computed map shows an obstacle in the region of interest. */
  predicate MapShowsDanger(m: DepthMap)
    requires WellFormed(m)
  {
    RoiEmptyOnlyForTinyMaps(m.w, m.h);
    var size := RoiSize(m.w, m.h);
    size > 0 && Danger(CountClose(m, RoiRowStart(m.h), m.h, RoiColStart(m.w), RoiColEnd(m.w)), size)
  }

  /** A map whose region is entirely close always shows danger; one with
      nothing close never does. */
  lemma DangerBounds(m: DepthMap)
    requires WellFormed(m)
    ensures (RoiSize(m.w, m.h) > 0 &&
      CountClose(m, RoiRowStart(m.h), m.h, RoiColStart(m.w), RoiColEnd(m.w)) == RoiSize(m.w, m.h)) ==> MapShowsDanger(m)
    ensures CountClose(m, RoiRowStart(m.h), m.h, RoiColStart(m.w), RoiColEnd(m.w)) == 0 ==> !MapShowsDanger(m)
  {
    RoiEmptyOnlyForTinyMaps(m.w, m.h);
    var size := RoiSize(m.w, m.h);
    if size > 0 {
      DangerIsMoreThanATenth(CountClose(m, RoiRowStart(m.h), m.h, RoiColStart(m.w), RoiColEnd(m.w)), size);
    }
  }

  /** Whether a frame that processes depth says "Stop": the map shows danger
      and more than `cooldown` has passed since the last warning. */
  predicate StopDue(depth: DepthOutcome, lastWarning: real, now: real, cooldown: real)
  {
    depth.Computed? && WellFormed(depth.depthMap) && MapShowsDanger(depth.depthMap) && Cooldown.Due(lastWarning, now, cooldown)
  }

  class GuardianMode {
    const audioEnabled: bool
    const idleTimeout: real := 3.0
    const warningCooldown: real := 2.0
    const idleProcessInterval: nat := 10
    const activeProcessInterval: nat := 30
    /** `depth_analyzer is not None`. */
    var analyzerReady: bool
    var state: GuardianState
    var frameCounter: int
    /** `prev_gray_frame is not None`: the first frame seen never counts as motion. */
    var hasPreviousFrame: bool
    var lastMotionTime: real
    var lastWarningTime: real

    constructor(audioEnabled: bool, now: real)
      ensures this.audioEnabled == audioEnabled
      ensures !analyzerReady && state == Idle && frameCounter == 0 && !hasPreviousFrame
      ensures lastMotionTime == now && lastWarningTime == 0.0
    {
      this.audioEnabled := audioEnabled;
      analyzerReady := false;
      state := Idle;
      frameCounter := 0;
      hasPreviousFrame := false;
      lastMotionTime := now;
      lastWarningTime := 0.0;
    }

    /** `_detect_motion`, given the frame-difference verdict: false on the
        first frame seen, the verdict afterwards. */
    method DetectMotion(changed: bool) returns (moving: bool)
      modifies this`hasPreviousFrame
      ensures moving == (old(hasPreviousFrame) && changed)
      ensures hasPreviousFrame
    {
      if !hasPreviousFrame {
        hasPreviousFrame := true;
        return false;
      }
      moving := changed;
    }

    /** The safety check of a frame that processes depth: "Depth Error" when
        the analyzer or the model fails, "Stop" on danger once the warning
        cooldown has passed. */
    method CheckSafety(now: real, depth: DepthOutcome) returns (info: seq<string>, speech: seq<string>)
      requires depth.Computed? ==> WellFormed(depth.depthMap)
      modifies this`analyzerReady, this`lastWarningTime
      ensures analyzerReady == (old(analyzerReady) || !depth.AnalyzerFailed?)
      ensures !depth.Computed? ==> info == ["Depth Error"] && speech == [] && lastWarningTime == old(lastWarningTime)
      ensures depth.Computed? ==> info == []
      ensures StopDue(depth, old(lastWarningTime), now, warningCooldown) ==> speech == ["Stop"] && lastWarningTime == now
      ensures !StopDue(depth, old(lastWarningTime), now, warningCooldown) ==> speech == [] && lastWarningTime == old(lastWarningTime)
    {
      info := [];
      speech := [];
      if depth.AnalyzerFailed? {
        info := ["Depth Error"];
        return;
      }
      analyzerReady := true;
      if depth.ComputeFailed? {
        info := ["Depth Error"];
        return;
      }
      var m := depth.depthMap;
      RoiEmptyOnlyForTinyMaps(m.w, m.h);
      var size := RoiSize(m.w, m.h);
      if size > 0 {
        var close := CountClose(m, RoiRowStart(m.h), m.h, RoiColStart(m.w), RoiColEnd(m.w));
        if (close as real) / (size as real) > 0.1 {
          if now - lastWarningTime > warningCooldown {
            speech := speech + ["Stop"];
            lastWarningTime := now;
          }
        }
      }
    }

    /** `process_frame` at `now`. `changed` is the frame-difference verdict and
        `depth` what the depth step yields if this frame processes depth. */
    method ProcessFrame(now: real, changed: bool, depth: DepthOutcome) returns (info: seq<string>, speech: seq<string>)
      requires depth.Computed? ==> WellFormed(depth.depthMap)
      modifies this`frameCounter, this`hasPreviousFrame, this`lastMotionTime, this`state
      modifies this`analyzerReady, this`lastWarningTime
      ensures frameCounter == old(frameCounter) + 1 && hasPreviousFrame
      ensures var moving := old(hasPreviousFrame) && changed;
        && state == NextState(old(state), moving, now, old(lastMotionTime), idleTimeout)
        && lastMotionTime == NextMotionTime(moving, now, old(lastMotionTime))
      ensures frameCounter % Interval(state) != 0 ==>
        info == ["State: " + StateName(state)] && speech == []
        && analyzerReady == old(analyzerReady) && lastWarningTime == old(lastWarningTime)
      ensures frameCounter % Interval(state) == 0 ==>
        && analyzerReady == (old(analyzerReady) || !depth.AnalyzerFailed?)
        && info == (if depth.Computed? then [] else ["Depth Error"]) + ["State: " + StateName(state)]
      ensures frameCounter % Interval(state) == 0 && StopDue(depth, old(lastWarningTime), now, warningCooldown) ==>
        speech == ["Stop"] && lastWarningTime == now
      ensures frameCounter % Interval(state) == 0 && !StopDue(depth, old(lastWarningTime), now, warningCooldown) ==>
        speech == [] && lastWarningTime == old(lastWarningTime)
    {
      frameCounter := frameCounter + 1;
      info := [];
      speech := [];
      var moving := DetectMotion(changed);
      if moving {
        lastMotionTime := now;
        if state == Idle {
          state := Active;
        }
      } else {
        if state == Active && now - lastMotionTime > idleTimeout {
          state := Idle;
        }
      }
      var interval := if state == Active then activeProcessInterval else idleProcessInterval;
      if frameCounter % interval == 0 {
        info, speech := CheckSafety(now, depth);
      }
      info := info + ["State: " + StateName(state)];
    }

    /** `on_enter`: the frame count restarts and the mode sits; the motion and
        warning times carry over. */
    method OnEnter()
      modifies this`frameCounter, this`state
      ensures frameCounter == 0 && state == Idle
    {
      frameCounter := 0;
      state := Idle;
    }
  }
}

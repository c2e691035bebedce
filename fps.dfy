/**
 * The frame-rate meter of the single-mode services (`_calculate_fps` in
 * facerecognizer.py, blindaid/modes/face_recognition/recognizer.py and
 * blindaid/modes/object_detection/detector.py): every frame is counted, and
 * on every 30th frame the rate over the last 30 frames is recomputed and the
 * timer restarts.
 */
module FpsMeter {

  /** How many frames one measurement spans. */
  const Window: int := 30

  /** The number of recomputations over the frames `start + 1` to `start + n`. */
  function Refreshes(start: int, n: nat): nat
  {
    if n == 0 then 0
    else Refreshes(start, n - 1) + (if (start + n) % Window == 0 then 1 else 0)
  }

  /** The rate is recomputed once per 30 frames: from a count of `start`, the
      next `n` frames bring exactly as many recomputations as multiples of 30
      they pass. */
  lemma {:induction false} RefreshesCountsMultiples(start: int, n: nat)
    ensures Refreshes(start, n) == (start + n) / Window - start / Window
  {
    if n > 0 {
      RefreshesCountsMultiples(start, n - 1);
      var a := start + n - 1;
      assert (a + 1) / Window == a / Window + (if (a + 1) % Window == 0 then 1 else 0);
    }
  }

  class Meter {
    var frameCount: int
    var fps: real
    var startTime: real

    /** `frame_count = 0`, `fps = 0`, the timer started at `now`. */
    constructor(now: real)
      ensures frameCount == 0 && fps == 0.0 && startTime == now
    {
      frameCount := 0;
      fps := 0.0;
      startTime := now;
    }

    /** `_calculate_fps` at `now`. On a 30th frame the rate becomes 30 frames
        over the elapsed time (0 when no time has passed) and the timer
        restarts; on other frames only the count changes. */
    method Tick(now: real)
      modifies this
      ensures frameCount == old(frameCount) + 1
      ensures frameCount % Window == 0 ==>
        && startTime == now
        && fps == (if now - old(startTime) > 0.0 then 30.0 / (now - old(startTime)) else 0.0)
      ensures frameCount % Window != 0 ==> startTime == old(startTime) && fps == old(fps)
      ensures fps > 0.0 ==> old(fps) > 0.0 || frameCount % Window == 0
    {
      frameCount := frameCount + 1;
      if frameCount % Window == 0 {
        var elapsed := now - startTime;
        fps := if elapsed > 0.0 then 30.0 / elapsed else 0.0;
        startTime := now;
      }
    }
  }
}

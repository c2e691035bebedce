/**
 * The depth wording of blindaid/core/depth.py. The depth model and
 * `np.median` are foreign code. Here the depth map is a `w` by `h` grid
 * known only through `median`, which gives the median normalised depth
 * (0 near, 1 far) of a rectangular region.
 */
module Depth {
  import opened Common
  import Scene

  /** `_categorize_depth`: the distance words for a normalised depth, and the
      rough distance in metres. */
  function CategorizeDepth(d: real): (r: (string, real))
    ensures r.1 >= 0.3
    ensures r.0 == "very close" <==> d < 0.3
    ensures r.0 == "at medium distance" <==> 0.3 <= d < 0.6
    ensures r.0 == "far" <==> d >= 0.6
    ensures (1.0 - d) * 4.0 >= 0.3 ==> r.1 == (1.0 - d) * 4.0
  {
    var meters := MaxReal(0.3, (1.0 - d) * 4.0);
    if d < 0.3 then ("very close", meters)
    else if d < 0.6 then ("at medium distance", meters)
    else ("far", meters)
  }

  function CategoryRank(word: string): nat
  {
    if word == "very close" then 0 else if word == "at medium distance" then 1 else 2
  }

  /** Farther depth never reads as nearer: the words and the metres are monotone. */
  lemma CategorizeDepthMonotonic(d1: real, d2: real)
    requires d1 <= d2
    ensures CategoryRank(CategorizeDepth(d1).0) <= CategoryRank(CategorizeDepth(d2).0)
    ensures CategorizeDepth(d1).1 >= CategorizeDepth(d2).1
  {
  }

  /** The number of cells of `depth_map[y1:y2, x1:x2]` on an `h` by `w` map,
      with numpy's slice rules for bounds past the edge. */
  function RegionSize(b: Box, w: int, h: int): int
  {
    var rows := Max(0, Min(b.y2, h) - Min(Max(b.y1, 0), h));
    var cols := Max(0, Min(b.x2, w) - Min(Max(b.x1, 0), w));
    rows * cols
  }

  /** A box that survives the clamp is never empty: once `x2 > x1` and
      `y2 > y1` hold, the `region.size == 0` test can no longer fire. */
  lemma ClampedRegionIsNonEmpty(b: Box, w: int, h: int)
    requires b.x1 >= 0 && b.y1 >= 0 && b.x2 <= w - 1 && b.y2 <= h - 1
    requires b.x2 > b.x1 && b.y2 > b.y1
    ensures RegionSize(b, w, h) > 0
  {
    var rows := b.y2 - b.y1;
    var cols := b.x2 - b.x1;
    assert RegionSize(b, w, h) == rows * cols;
  }

  /** One debug line of `describe_detections`, kept as its fields: the name,
      the median depth, the distance words and the metres. */
  datatype DepthReading = DepthReading(name: string, depth: real, words: string, meters: real)

  /** Whether a clamped box is kept: not degenerate and not empty. */
  predicate Measurable(c: Box, w: int, h: int)
  {
    !(c.x2 <= c.x1 || c.y2 <= c.y1) && RegionSize(c, w, h) != 0
  }

  function Reading(d: Scene.Detection, c: Box, median: Box -> real): DepthReading
  {
    var m := median(c);
    DepthReading(d.name, m, CategorizeDepth(m).0, CategorizeDepth(m).1)
  }

  /** The readings of the detections that are kept, in detection order. */
  function Readings(dets: seq<Scene.Detection>, w: int, h: int, median: Box -> real): seq<DepthReading>
    decreases |dets|
  {
    if dets == [] then []
    else
      var before := Readings(dets[..|dets| - 1], w, h, median);
      var d := dets[|dets| - 1];
      var c := ClampBox(d.box, w, h);
      if Measurable(c, w, h) then before + [Reading(d, c, median)] else before
  }

  /** "<name> appears <words>" per reading. */
  function Messages(readings: seq<DepthReading>): seq<string>
  {
    if readings == [] then [] else [readings[0].name + " appears " + readings[0].words] + Messages(readings[1..])
  }

  /** What `describe_detections` returns: the summary and the debug readings. */
  function Description(dets: seq<Scene.Detection>, w: int, h: int, median: Box -> real): (string, seq<DepthReading>)
  {
    if dets == [] then ("No detections available for depth analysis.", [])
    else
      var readings := Readings(dets, w, h, median);
      if readings == [] then ("Unable to estimate depth for the detected objects.", readings)
      else (Join(" ", Messages(readings)), readings)
  }

  /** The detections whose clamped box is measurable, in order. */
  function Kept(dets: seq<Scene.Detection>, w: int, h: int): seq<Scene.Detection>
    decreases |dets|
  {
    if dets == [] then []
    else
      var before := Kept(dets[..|dets| - 1], w, h);
      var d := dets[|dets| - 1];
      if Measurable(ClampBox(d.box, w, h), w, h) then before + [d] else before
  }

  /** One reading per kept detection, in order, carrying its name and the
      words and metres `_categorize_depth` gives its region's median. */
  lemma {:induction false} ReadingsFollowKept(dets: seq<Scene.Detection>, w: int, h: int, median: Box -> real)
    ensures |Readings(dets, w, h, median)| == |Kept(dets, w, h)|
    ensures forall k :: 0 <= k < |Kept(dets, w, h)| ==>
      var r := Readings(dets, w, h, median)[k];
      var d := Kept(dets, w, h)[k];
      && r.name == d.name
      && r.depth == median(ClampBox(d.box, w, h))
      && (r.words, r.meters) == CategorizeDepth(r.depth)
      && r.meters >= 0.3
    decreases |dets|
  {
    if dets != [] {
      ReadingsFollowKept(dets[..|dets| - 1], w, h, median);
    }
  }

  /** The non-degenerate test is the whole test: the size check after it
      never removes a box. */
  lemma MeasurableIsNonDegenerate(c: Box, w: int, h: int)
    requires c.x1 >= 0 && c.y1 >= 0 && c.x2 <= w - 1 && c.y2 <= h - 1
    ensures Measurable(c, w, h) <==> c.x2 > c.x1 && c.y2 > c.y1
  {
    if c.x2 > c.x1 && c.y2 > c.y1 {
      ClampedRegionIsNonEmpty(c, w, h);
    }
  }

  /** `describe_detections` on a `w` by `h` depth map: the loop over the
      detections with its two `continue`s. */
  method DescribeDetections(dets: seq<Scene.Detection>, w: int, h: int, median: Box -> real)
    returns (summary: string, debug: seq<DepthReading>)
    ensures (summary, debug) == Description(dets, w, h, median)
  {
    if |dets| == 0 {
      return "No detections available for depth analysis.", [];
    }
    var messages: seq<string> := [];
    debug := [];
    var i := 0;
    while i < |dets|
      invariant 0 <= i <= |dets|
      invariant debug == Readings(dets[..i], w, h, median)
      invariant messages == Messages(debug)
    {
      var det := dets[i];
      assert dets[..i + 1][..i] == dets[..i];
      var c := ClampBox(det.box, w, h);
      if c.x2 <= c.x1 || c.y2 <= c.y1 {
        i := i + 1;
        continue;
      }
      if RegionSize(c, w, h) == 0 {
        i := i + 1;
        continue;
      }
      var medianDepth := median(c);
      var category := CategorizeDepth(medianDepth);
      MessagesSnoc(debug, Reading(det, c, median));
      messages := messages + [det.name + " appears " + category.0];
      debug := debug + [DepthReading(det.name, medianDepth, category.0, category.1)];
      i := i + 1;
    }
    assert dets[..i] == dets;
    if |messages| == 0 {
      return "Unable to estimate depth for the detected objects.", debug;
    }
    summary := Join(" ", messages);
  }

  /** The three outcomes of `describe_detections`: a fixed sentence with no
      debug lines for no detections, another when no box is kept, and
      otherwise the messages joined by spaces, message `k` naming kept
      detection `k` and how far its region's median reads. */
  lemma DescriptionOutcomes(dets: seq<Scene.Detection>, w: int, h: int, median: Box -> real)
    ensures dets == [] ==> Description(dets, w, h, median) == ("No detections available for depth analysis.", [])
    ensures dets != [] && Kept(dets, w, h) == [] ==>
      Description(dets, w, h, median) == ("Unable to estimate depth for the detected objects.", [])
    ensures Kept(dets, w, h) != [] ==>
      && Description(dets, w, h, median).0 == Join(" ", Messages(Readings(dets, w, h, median)))
      && |Messages(Readings(dets, w, h, median))| == |Kept(dets, w, h)|
      && forall k :: 0 <= k < |Kept(dets, w, h)| ==>
        Messages(Readings(dets, w, h, median))[k] ==
        Kept(dets, w, h)[k].name + " appears " + CategorizeDepth(median(ClampBox(Kept(dets, w, h)[k].box, w, h))).0
  {
    ReadingsFollowKept(dets, w, h, median);
    var rs := Readings(dets, w, h, median);
    MessagesAt(rs);
    if Kept(dets, w, h) != [] {
      assert dets != [];
    }
  }

  /** Message `k` is about reading `k`. */
  lemma {:induction false} MessagesAt(readings: seq<DepthReading>)
    ensures |Messages(readings)| == |readings|
    ensures forall k :: 0 <= k < |readings| ==> Messages(readings)[k] == readings[k].name + " appears " + readings[k].words
    decreases |readings|
  {
    if readings != [] {
      MessagesAt(readings[1..]);
    }
  }

  lemma {:induction false} MessagesSnoc(readings: seq<DepthReading>, r: DepthReading)
    ensures Messages(readings + [r]) == Messages(readings) + [r.name + " appears " + r.words]
    ensures |Messages(readings)| == |readings|
    decreases |readings|
  {
    if readings != [] {
      assert (readings + [r])[1..] == readings[1..] + [r];
      MessagesSnoc(readings[1..], r);
    }
  }
}

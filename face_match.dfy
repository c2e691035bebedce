/**
 * Nearest-match face recognition, as every `_recognize_face` in BlindAid does
 * it. The face encodings and `face_distance` come from a foreign library.
 * Here a face is the list of its distances to the known encodings, one per
 * gallery entry.
 */
module FaceMatch {
  import opened Common

  /** The name given to a face that matches no one. */
  const UnknownName: string := "Unknown"

  /** `np.argmin`: the index of the first smallest distance. */
  function ArgMin(d: seq<real>): (k: nat)
    requires |d| > 0
    ensures k < |d|
    ensures forall i :: 0 <= i < |d| ==> d[k] <= d[i]
    ensures forall i :: 0 <= i < k ==> d[i] > d[k]
    decreases |d|
  {
    if |d| == 1 then 0
    else
      var k := ArgMin(d[..|d| - 1]);
      assert forall i :: 0 <= i < |d| - 1 ==> d[..|d| - 1][i] == d[i];
      if d[|d| - 1] < d[k] then |d| - 1 else k
  }

  /** A recognition result: the name and the confidence. */
  datatype Match = Match(name: string, confidence: real)

  /** `_recognize_face` of facerecognizer.py and recognizer.py. An empty gallery
      gives ("Unknown", 0.0). Otherwise the nearest known face is taken (the
      first one on a tie). Its name is returned iff its distance is at most
      `threshold`, and "Unknown" otherwise. The confidence is
      `1 - distance` either way, with no clamping. */
  function RecognizeFace(names: seq<string>, distances: seq<real>, threshold: real): (m: Match)
    requires |distances| == |names|
    ensures |names| == 0 ==> m == Match(UnknownName, 0.0)
    ensures |names| > 0 ==>
      && (forall i :: 0 <= i < |distances| ==> m.confidence >= 1.0 - distances[i])
      && (exists i :: 0 <= i < |distances| && m.confidence == 1.0 - distances[i])
    ensures |names| > 0 && (forall i :: 0 <= i < |distances| ==> distances[i] > threshold) ==>
      m.name == UnknownName
    ensures |names| > 0 && (exists i :: 0 <= i < |distances| && distances[i] <= threshold) ==>
      exists k :: 0 <= k < |names| && m.name == names[k] && distances[k] <= threshold
        && (forall i :: 0 <= i < |distances| ==> distances[k] <= distances[i])
  {
    if |names| == 0 then Match(UnknownName, 0.0)
    else
      var k := ArgMin(distances);
      if distances[k] <= threshold then Match(names[k], 1.0 - distances[k])
      else Match(UnknownName, 1.0 - distances[k])
  }

  /** `_recognize_face` of people_mode.py and scene_mode.py: the same match,
      with the confidence clamped at 0 (`max(0.0, 1.0 - best_distance)`). */
  function RecognizeFaceClamped(names: seq<string>, distances: seq<real>, threshold: real): (m: Match)
    requires |distances| == |names|
    ensures m.name == RecognizeFace(names, distances, threshold).name
    ensures 0.0 <= m.confidence
    ensures m.confidence >= RecognizeFace(names, distances, threshold).confidence
    ensures RecognizeFace(names, distances, threshold).confidence >= 0.0 ==>
      m.confidence == RecognizeFace(names, distances, threshold).confidence
  {
    var raw := RecognizeFace(names, distances, threshold);
    Match(raw.name, MaxReal(0.0, raw.confidence))
  }

  /** A face is named iff some known face lies within the threshold (given that
      no gallery entry is itself called "Unknown"). The name is always one of
      the gallery's or "Unknown". */
  lemma RecognizedIffWithinThreshold(names: seq<string>, distances: seq<real>, threshold: real)
    requires |distances| == |names|
    requires UnknownName !in names
    ensures RecognizeFace(names, distances, threshold).name != UnknownName <==>
      exists i :: 0 <= i < |distances| && distances[i] <= threshold
    ensures RecognizeFace(names, distances, threshold).name in names + [UnknownName]
  {
    var m := RecognizeFace(names, distances, threshold);
    if |names| > 0 {
      var k := ArgMin(distances);
      if distances[k] <= threshold {
        assert m.name == names[k];
      }
    }
  }
}

/**
 * The single-mode object detection service of
 * blindaid/modes/object_detection/detector.py: every frame is counted for
 * the FPS meter, the detector's boxes at or above the confidence are
 * described by name and third of the frame, and at most three descriptions
 * are spoken in one message, automatically at most once every 3 seconds and
 * again whenever "s" is pressed.
 *
 * The YOLO model is foreign code: its results on a frame are an input, one
 * list of boxes per result. The camera, the window and the drawing are left
 * out; `now` is the clock.
 */
module Detector {
  import opened Common
  import Cooldown
  import Audio
  import FpsMeter

  /** `announcement_cooldown`. */
  const AnnouncementCooldown: real := 3.0

  /** At most this many objects are named in one message. */
  const MaxAnnounced: nat := 3

  /** One YOLO box: its class id, its confidence and its horizontal extent. */
  datatype YoloBox = YoloBox(cls: int, conf: real, x1: real, x2: real)

  /** The boxes of all results, result by result. */
  function Flatten(results: seq<seq<YoloBox>>): seq<YoloBox>
    decreases |results|
  {
    if results == [] then [] else Flatten(results[..|results| - 1]) + results[|results| - 1]
  }

  /** A box the announcement looks at: at or above the confidence. */
  predicate Qualifies(b: YoloBox, confidence: real)
  {
    b.conf >= confidence
  }

  /** `model.names[cls]` is defined for every qualifying box (otherwise the
      lookup raises). */
  predicate Named(boxes: seq<YoloBox>, names: map<int, string>, confidence: real)
  {
    forall i :: 0 <= i < |boxes| && Qualifies(boxes[i], confidence) ==> boxes[i].cls in names
  }

  /** "<name> on the <position>" for a qualifying box. */
  function Description(b: YoloBox, names: map<int, string>, width: int): string
    requires b.cls in names
  {
    names[b.cls] + " on the " + Position((b.x1 + b.x2) / 2.0, width, ObjectWords)
  }

  /** The descriptions of the qualifying boxes, in order. */
  function Describe(boxes: seq<YoloBox>, names: map<int, string>, confidence: real, width: int): seq<string>
    requires Named(boxes, names, confidence)
    decreases |boxes|
  {
    if boxes == [] then []
    else
      var b := boxes[|boxes| - 1];
      Describe(boxes[..|boxes| - 1], names, confidence, width)
        + (if Qualifies(b, confidence) then [Description(b, names, width)] else [])
  }

  /** Exactly the qualifying boxes are described, one description each. */
  lemma {:induction false} DescribeExact(boxes: seq<YoloBox>, names: map<int, string>, confidence: real, width: int)
    requires Named(boxes, names, confidence)
    ensures |Describe(boxes, names, confidence, width)| <= |boxes|
    ensures forall s :: s in Describe(boxes, names, confidence, width) <==>
      exists b :: b in boxes && Qualifies(b, confidence) && b.cls in names && s == Description(b, names, width)
    ensures Describe(boxes, names, confidence, width) == [] <==> forall b :: b in boxes ==> !Qualifies(b, confidence)
    decreases |boxes|
  {
    if boxes != [] {
      var init := boxes[..|boxes| - 1];
      DescribeExact(init, names, confidence, width);
      assert boxes == init + [boxes[|boxes| - 1]];
    }
  }

  /** What `_announce_detections` speaks: nothing when audio is off, when
      there are no results or when no box qualifies; otherwise the first three
      descriptions joined by ", ". */
  function Announcement(results: seq<seq<YoloBox>>, names: map<int, string>, confidence: real, width: int, audioEnabled: bool): Option<string>
    requires Named(Flatten(results), names, confidence)
  {
    if !audioEnabled || results == [] then None
    else
      var described := Describe(Flatten(results), names, confidence, width);
      if described == [] then None
      else Some(Join(", ", described[..Min(|described|, MaxAnnounced)]))
  }

  /** A message is spoken iff audio is on and some box qualifies, and it
      names between one and three of the qualifying boxes, the first ones in
      detection order. */
  lemma AnnouncementNamesFirstThree(results: seq<seq<YoloBox>>, names: map<int, string>, confidence: real, width: int, audioEnabled: bool)
    requires Named(Flatten(results), names, confidence)
    ensures Announcement(results, names, confidence, width, audioEnabled).Some? <==>
      audioEnabled && exists b :: b in Flatten(results) && Qualifies(b, confidence)
    ensures Announcement(results, names, confidence, width, audioEnabled).Some? ==>
      exists shown: seq<string> ::
        && 1 <= |shown| <= MaxAnnounced
        && shown <= Describe(Flatten(results), names, confidence, width)
        && Announcement(results, names, confidence, width, audioEnabled) == Some(Join(", ", shown))
  {
    DescribeExact(Flatten(results), names, confidence, width);
    if results == [] {
      assert Flatten(results) == [];
    }
  }

  /** A key read from the window. */
  datatype DetectorKey = QuitKey | SpeakKey | OtherKey

  class ObjectDetector {
    const audioEnabled: bool
    const confidence: real
    /** `model.names`. */
    const names: map<int, string>
    /** The speech player, built only when audio is enabled; with audio off
        it is never used. */
    const player: Audio.AudioPlayer
    const meter: FpsMeter.Meter
    /** `last_announcement`, a local of `run` kept across frames. */
    var lastAnnouncement: real

    ghost predicate Valid()
      reads this, player
    {
      player.Valid()
    }

    /** The service before `run` starts its loop: nothing announced yet
        (`last_announcement = 0`). */
    constructor(audioEnabled: bool, confidence: real, names: map<int, string>, engineAvailable: bool, now: real)
      ensures Valid() && fresh(player) && fresh(meter)
      ensures this.audioEnabled == audioEnabled && this.confidence == confidence && this.names == names
      ensures player.queue == [] && player.workerAlive == engineAvailable
      ensures meter.frameCount == 0 && meter.startTime == now
      ensures lastAnnouncement == 0.0
    {
      this.audioEnabled := audioEnabled;
      this.confidence := confidence;
      this.names := names;
      player := new Audio.AudioPlayer(engineAvailable);
      meter := new FpsMeter.Meter(now);
      lastAnnouncement := 0.0;
    }

    /** `_announce_detections`: the loop over results and their boxes, then
        at most one `speak`. */
    method AnnounceDetections(results: seq<seq<YoloBox>>, width: int) returns (message: Option<string>)
      requires Valid() && Named(Flatten(results), names, confidence)
      modifies player
      ensures Valid()
      ensures message == Announcement(results, names, confidence, width, audioEnabled)
      ensures player.queue == Audio.OfferAll(old(player.queue), Said(message))
      ensures player.played == old(player.played) && player.workerAlive == old(player.workerAlive)
    {
      if !audioEnabled || |results| == 0 {
        return None;
      }
      var detected: seq<string> := [];
      var i := 0;
      while i < |results|
        invariant 0 <= i <= |results|
        invariant unchanged(player)
        invariant Flatten(results[..i]) <= Flatten(results)
        invariant Named(Flatten(results[..i]), names, confidence)
        invariant detected == Describe(Flatten(results[..i]), names, confidence, width)
      {
        assert results[..i + 1][..i] == results[..i];
        assert Flatten(results[..i + 1]) == Flatten(results[..i]) + results[i];
        FlattenPrefix(results, i + 1);
        NamedPrefix(Flatten(results[..i + 1]), Flatten(results), confidence, names);
        detected := DescribeBoxes(Flatten(results[..i]), results[i], detected, width);
        i := i + 1;
      }
      assert results[..i] == results;
      if |detected| > 0 {
        message := Some(Join(", ", detected[..Min(|detected|, MaxAnnounced)]));
        var accepted := player.Speak(message.value);
        assert [message.value][..0] == [];
      } else {
        message := None;
      }
    }

    /** The inner loop of `_announce_detections`, over the boxes of one
        result: the descriptions so far, of the boxes `done`, are extended by
        those of the qualifying `boxes`. */
    method DescribeBoxes(done: seq<YoloBox>, boxes: seq<YoloBox>, detected: seq<string>, width: int) returns (r: seq<string>)
      requires Named(done, names, confidence) && Named(done + boxes, names, confidence)
      requires detected == Describe(done, names, confidence, width)
      ensures r == Describe(done + boxes, names, confidence, width)
    {
      r := detected;
      var j := 0;
      assert done + boxes[..0] == done;
      while j < |boxes|
        invariant 0 <= j <= |boxes|
        invariant Named(done + boxes[..j], names, confidence)
        invariant r == Describe(done + boxes[..j], names, confidence, width)
      {
        var box := boxes[j];
        ghost var prefix := done + boxes[..j];
        assert done + boxes[..j + 1] == prefix + [box];
        assert (prefix + [box])[..|prefix|] == prefix;
        assert done + boxes[..j + 1] <= done + boxes;
        NamedPrefix(done + boxes[..j + 1], done + boxes, confidence, names);
        if box.conf >= confidence {
          assert (prefix + [box])[|prefix|] == box;
          r := r + [Description(box, names, width)];
        }
        j := j + 1;
      }
      assert boxes[..j] == boxes;
    }

    /** One pass of the `run` loop at `now`: the frame is counted, the
        automatic announcement runs if more than 3 seconds have passed since
        the last one (and then restarts the cooldown, even when it said
        nothing), and "s" announces again. `spoken` lists the messages, the
        automatic one first. */
    method Frame(results: seq<seq<YoloBox>>, width: int, now: real, key: DetectorKey)
      returns (spoken: seq<string>, quit: bool)
      requires Valid() && Named(Flatten(results), names, confidence)
      modifies this`lastAnnouncement, player, meter
      ensures Valid()
      ensures meter.frameCount == old(meter.frameCount) + 1
      ensures lastAnnouncement == if Cooldown.Due(old(lastAnnouncement), now, AnnouncementCooldown) then now else old(lastAnnouncement)
      ensures quit <==> key == QuitKey
      ensures spoken ==
        (if Cooldown.Due(old(lastAnnouncement), now, AnnouncementCooldown) then Said(Announcement(results, names, confidence, width, audioEnabled)) else [])
        + (if key == SpeakKey then Said(Announcement(results, names, confidence, width, audioEnabled)) else [])
      ensures player.queue == Audio.OfferAll(old(player.queue), spoken)
      ensures player.played == old(player.played) && player.workerAlive == old(player.workerAlive)
    {
      meter.Tick(now);
      var auto := AutoAnnounce(results, width, now);
      quit := key == QuitKey;
      var again := [];
      if key == SpeakKey {
        var m := AnnounceDetections(results, width);
        again := Said(m);
      }
      spoken := auto + again;
      Audio.OfferAllAppend(old(player.queue), auto, again);
    }

    /** The automatic announcement: it runs if more than 3 seconds have
        passed since the last one, and then restarts the cooldown. */
    method AutoAnnounce(results: seq<seq<YoloBox>>, width: int, now: real) returns (spoken: seq<string>)
      requires Valid() && Named(Flatten(results), names, confidence)
      modifies this`lastAnnouncement, player
      ensures Valid()
      ensures lastAnnouncement == if Cooldown.Due(old(lastAnnouncement), now, AnnouncementCooldown) then now else old(lastAnnouncement)
      ensures spoken ==
        if Cooldown.Due(old(lastAnnouncement), now, AnnouncementCooldown) then Said(Announcement(results, names, confidence, width, audioEnabled)) else []
      ensures player.queue == Audio.OfferAll(old(player.queue), spoken)
      ensures player.played == old(player.played) && player.workerAlive == old(player.workerAlive)
    {
      spoken := [];
      if now - lastAnnouncement > AnnouncementCooldown {
        var m := AnnounceDetections(results, width);
        spoken := Said(m);
        lastAnnouncement := now;
      }
    }
  }

  /** A prefix of named boxes is named. */
  lemma NamedPrefix(boxes: seq<YoloBox>, all: seq<YoloBox>, confidence: real, names: map<int, string>)
    requires boxes <= all && Named(all, names, confidence)
    ensures Named(boxes, names, confidence)
  {
    forall i | 0 <= i < |boxes| && Qualifies(boxes[i], confidence)
      ensures boxes[i].cls in names
    {
      assert boxes[i] == all[i];
    }
  }

  /** The boxes of the first `n` results are a prefix of all the boxes. */
  lemma {:induction false} FlattenPrefix(results: seq<seq<YoloBox>>, n: nat)
    requires n <= |results|
    ensures Flatten(results[..n]) <= Flatten(results)
    decreases |results| - n
  {
    if n < |results| {
      FlattenPrefix(results, n + 1);
      assert results[..n + 1][..n] == results[..n];
    } else {
      assert results[..n] == results;
    }
  }
}

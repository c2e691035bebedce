/**
 * The single-mode face recognition services: `FaceRecognizer` of
 * facerecognizer.py and `FaceRecognitionService` of
 * blindaid/modes/face_recognition/recognizer.py. Both run the same frame
 * loop: count the frame for the FPS meter, process only every N-th frame,
 * name each face by its nearest known face, announce a named face unless it
 * was announced within the debounce time, keep the last non-empty detection
 * list, and draw only detections younger than the overlay timeout.
 *
 * The two differ only in their speech player: facerecognizer.py always
 * builds one, recognizer.py only when audio is enabled, and records the
 * announcement time either way. The player is the queue of
 * blindaid/core/audio.py, which facerecognizer.py repeats line for line.
 *
 * The person detector and the face encoder are foreign code: a face arrives
 * as its box on the downscaled frame and its distances to the known faces.
 * The camera, the window and the drawing are left out; `now` is the clock.
 */
module FaceService {
  import opened Common
  import opened FaceMatch
  import opened Cooldown
  import Audio
  import FpsMeter

  /** A face found on a processed frame: its box on the downscaled frame
      (`top, right, bottom, left`) and its distance to every known face. */
  /** The key `cv2.waitKey` reports after the frame is shown: 'q' ends the
      loop, any other key (or none) goes on. */
  datatype FaceKey = QuitKey | OtherKey

  datatype FaceInput = FaceInput(top: int, right: int, bottom: int, left: int, distances: seq<real>)

  /** One entry of `detections`: the box on the full frame, the name, the
      confidence, the position word and when it was seen. */
  datatype FaceDetection = FaceDetection(
    left: int, top: int, right: int, bottom: int,
    name: string, confidence: real, position: string, timestamp: real)

  /** `int(v / scale)`: a coordinate scaled back to the full frame. */
  function Rescale(v: int, scale: real): int
    requires scale != 0.0
  {
    Trunc(v as real / scale)
  }

  /** The detection the loop builds for one face. */
  function Detect(f: FaceInput, names: seq<string>, threshold: real, scale: real, width: int, now: real): (d: FaceDetection)
    requires scale != 0.0 && |f.distances| == |names|
    ensures d.name == RecognizeFace(names, f.distances, threshold).name
    ensures d.confidence == RecognizeFace(names, f.distances, threshold).confidence
    ensures d.position == Position(d.left as real, width, FaceWords)
    ensures d.timestamp == now
  {
    var m := RecognizeFace(names, f.distances, threshold);
    var left := Rescale(f.left, scale);
    FaceDetection(left, Rescale(f.top, scale), Rescale(f.right, scale), Rescale(f.bottom, scale),
                  m.name, m.confidence, Position(left as real, width, FaceWords), now)
  }

  predicate Comparable(faces: seq<FaceInput>, names: seq<string>)
  {
    forall i :: 0 <= i < |faces| ==> |faces[i].distances| == |names|
  }

  /** The detections of a processed frame, one per face, in order. */
  function Detections(faces: seq<FaceInput>, names: seq<string>, threshold: real, scale: real, width: int, now: real): (r: seq<FaceDetection>)
    requires scale != 0.0 && Comparable(faces, names)
    ensures |r| == |faces|
    ensures forall i :: 0 <= i < |faces| ==> r[i] == Detect(faces[i], names, threshold, scale, width, now)
  {
    seq(|faces|, i requires 0 <= i < |faces| => Detect(faces[i], names, threshold, scale, width, now))
  }

  /** The detections of the first `i + 1` faces: those of the first `i`,
      then the detection of face `i`. */
  lemma DetectionsSnoc(faces: seq<FaceInput>, i: int, names: seq<string>, threshold: real, scale: real, width: int, now: real)
    requires scale != 0.0 && Comparable(faces, names) && 0 <= i < |faces|
    ensures Comparable(faces[..i], names) && Comparable(faces[..i + 1], names)
    ensures Detections(faces[..i + 1], names, threshold, scale, width, now)
      == Detections(faces[..i], names, threshold, scale, width, now) + [Detect(faces[i], names, threshold, scale, width, now)]
  {
  }

  /** What an announcement says. */
  function Announcement(d: FaceDetection): string
  {
    d.name + " is on the " + d.position + " side."
  }

  /** The announcement attempts of a detection list: the named faces, in
      order, keyed by name. "Unknown" faces are never announced. */
  function Attempts(dets: seq<FaceDetection>): seq<Event<string>>
    decreases |dets|
  {
    if dets == [] then []
    else
      var d := dets[|dets| - 1];
      Attempts(dets[..|dets| - 1]) + (if d.name != UnknownName then [Event(d.name, d.timestamp, Announcement(d))] else [])
  }

  lemma {:induction false} AttemptsExact(dets: seq<FaceDetection>)
    ensures |Attempts(dets)| <= |dets|
    ensures forall e :: e in Attempts(dets) <==>
      exists d :: d in dets && d.name != UnknownName && e == Event(d.name, d.timestamp, Announcement(d))
    decreases |dets|
  {
    if dets != [] {
      var init := dets[..|dets| - 1];
      AttemptsExact(init);
      assert dets == init + [dets[|dets| - 1]];
    }
  }

  /** The texts of some announcements, in order. */
  function Payloads(a: seq<Event<string>>): (r: seq<string>)
    ensures |r| == |a|
    ensures forall i :: 0 <= i < |a| ==> r[i] == a[i].payload
  {
    seq(|a|, i requires 0 <= i < |a| => a[i].payload)
  }

  /** One frame's announcements: every announced name belongs to a named face
      of the frame and says where it is, and no name is announced twice in one
      frame, because all of its faces share one clock reading. */
  lemma OneAnnouncementPerName(ledger: map<string, real>, dets: seq<FaceDetection>, debounce: real, now: real)
    requires debounce >= 0.0
    requires forall i :: 0 <= i < |dets| ==> dets[i].timestamp == now
    ensures KeysDistinct(Announced(ledger, Attempts(dets), debounce, None))
    ensures forall e :: e in Announced(ledger, Attempts(dets), debounce, None) ==>
      exists d :: d in dets && d.name == e.key && d.name != UnknownName && e.payload == Announcement(d)
  {
    var a := Announced(ledger, Attempts(dets), debounce, None);
    AnnouncedIsSpacedPerKey(ledger, Attempts(dets), debounce, None);
    AnnouncedAreEvents(ledger, Attempts(dets), debounce, None);
    AttemptsExact(dets);
    forall i, j | 0 <= i < j < |a|
      ensures a[i].key != a[j].key
    {
      assert a[i] in Attempts(dets) && a[j] in Attempts(dets);
      assert a[i].time == now && a[j].time == now;
    }
  }

  /** The detections still drawn at `now`: those seen at most `timeout`
      seconds ago, in order. */
  function Fresh(dets: seq<FaceDetection>, now: real, timeout: real): seq<FaceDetection>
    decreases |dets|
  {
    if dets == [] then []
    else
      var d := dets[|dets| - 1];
      Fresh(dets[..|dets| - 1], now, timeout) + (if now - d.timestamp > timeout then [] else [d])
  }

  /** Exactly the detections younger than the timeout are drawn. */
  lemma {:induction false} FreshExact(dets: seq<FaceDetection>, now: real, timeout: real)
    ensures |Fresh(dets, now, timeout)| <= |dets|
    ensures forall d :: d in Fresh(dets, now, timeout) <==> d in dets && now - d.timestamp <= timeout
    decreases |dets|
  {
    if dets != [] {
      var init := dets[..|dets| - 1];
      FreshExact(init, now, timeout);
      assert dets == init + [dets[|dets| - 1]];
    }
  }

  /** A detection that has gone stale stays stale: the detections drawn at a
      later time are those drawn earlier that are still young enough. */
  lemma {:induction false} FreshLater(dets: seq<FaceDetection>, t1: real, t2: real, timeout: real)
    requires t1 <= t2
    ensures Fresh(Fresh(dets, t1, timeout), t2, timeout) == Fresh(dets, t2, timeout)
    decreases |dets|
  {
    if dets != [] {
      var init := dets[..|dets| - 1];
      var d := dets[|dets| - 1];
      FreshLater(init, t1, t2, timeout);
      var b := Fresh(init, t1, timeout);
      if !(t1 - d.timestamp > timeout) {
        assert Fresh(dets, t1, timeout) == b + [d];
        assert (b + [d])[..|b + [d]| - 1] == b;
        assert Fresh(b + [d], t2, timeout) == Fresh(b, t2, timeout) + (if t2 - d.timestamp > timeout then [] else [d]);
      } else {
        assert Fresh(dets, t1, timeout) == b;
        assert Fresh(dets, t2, timeout) == Fresh(init, t2, timeout);
      }
    }
  }

  /** `speak` after a run of `speak` calls: one more put on the queue they
      left, which takes the message unless the queue is full. */
  lemma OfferSnoc(items: seq<Audio.Message>, texts: seq<string>, t: string)
    ensures Audio.OfferAll(items, texts + [t]) ==
      var before := Audio.OfferAll(items, texts);
      if |before| < Audio.Capacity then before + [Audio.Utterance(t)] else before
  {
    assert (texts + [t])[..|texts|] == texts;
  }

  /** The player's queue after one more face: when the queue so far holds
      the payloads announced for `before` and the face is announced, offering
      its announcement gives the payloads announced for `before + [d]`. */
  lemma QueueSnoc(ledger0: map<string, real>, queue0: seq<Audio.Message>, before: seq<FaceDetection>, d: FaceDetection,
                  debounce: real, hasPlayer: bool, queue: seq<Audio.Message>, queue': seq<Audio.Message>)
    requires queue == if hasPlayer then Audio.OfferAll(queue0, Payloads(Announced(ledger0, Attempts(before), debounce, None))) else queue0
    requires var announce := d.name != UnknownName && Allows(LedgerAfter(ledger0, Attempts(before), debounce, None), d.name, d.timestamp, debounce, None);
      queue' == if announce && hasPlayer && |queue| < Audio.Capacity then queue + [Audio.Utterance(Announcement(d))] else queue
    ensures queue' == if hasPlayer then Audio.OfferAll(queue0, Payloads(Announced(ledger0, Attempts(before + [d]), debounce, None))) else queue0
  {
    AnnounceSnoc(ledger0, before, d, debounce);
    OfferSnoc(queue0, Payloads(Announced(ledger0, Attempts(before), debounce, None)), Announcement(d));
  }

  /** The attempts of a frame with one more face at the end. */
  lemma AttemptsSnoc(before: seq<FaceDetection>, d: FaceDetection)
    ensures Attempts(before + [d]) ==
      Attempts(before) + (if d.name != UnknownName then [Event(d.name, d.timestamp, Announcement(d))] else [])
  {
    assert (before + [d])[..|before|] == before;
  }

  lemma PayloadsSnoc(a: seq<Event<string>>, e: Event<string>)
    ensures Payloads(a + [e]) == Payloads(a) + [e.payload]
  {
  }

  /** One more face at the end of a frame: it is announced iff it is named
      and the ledger left by the earlier faces allows it, and only then does
      the ledger change and the announcement join the others. */
  lemma AnnounceSnoc(ledger: map<string, real>, before: seq<FaceDetection>, d: FaceDetection, debounce: real)
    ensures d.name != UnknownName && Allows(LedgerAfter(ledger, Attempts(before), debounce, None), d.name, d.timestamp, debounce, None) ==>
      && LedgerAfter(ledger, Attempts(before + [d]), debounce, None) == LedgerAfter(ledger, Attempts(before), debounce, None)[d.name := d.timestamp]
      && Payloads(Announced(ledger, Attempts(before + [d]), debounce, None)) == Payloads(Announced(ledger, Attempts(before), debounce, None)) + [Announcement(d)]
    ensures !(d.name != UnknownName && Allows(LedgerAfter(ledger, Attempts(before), debounce, None), d.name, d.timestamp, debounce, None)) ==>
      && LedgerAfter(ledger, Attempts(before + [d]), debounce, None) == LedgerAfter(ledger, Attempts(before), debounce, None)
      && Payloads(Announced(ledger, Attempts(before + [d]), debounce, None)) == Payloads(Announced(ledger, Attempts(before), debounce, None))
  {
    AttemptsSnoc(before, d);
    var e := Event(d.name, d.timestamp, Announcement(d));
    if d.name != UnknownName {
      RunSnoc(ledger, Attempts(before), e, debounce, None);
      PayloadsSnoc(Announced(ledger, Attempts(before), debounce, None), e);
    } else {
      assert Attempts(before + [d]) == Attempts(before);
    }
  }

  /** The face service: its settings, its speech player, its FPS meter and
      the state its frame loop keeps. */
  class FaceTracker {
    /** The gallery of known faces, by name. */
    const names: seq<string>
    const threshold: real
    const debounce: real
    const overlayTimeout: real
    const processEvery: int
    const scale: real
    /** Whether there is a speech player: always for facerecognizer.py, when
        audio is enabled for recognizer.py. */
    const hasPlayer: bool
    const player: Audio.AudioPlayer
    const meter: FpsMeter.Meter
    /** `last_spoken`. */
    var lastSpoken: map<string, real>
    /** `last_detections`. */
    var lastDetections: seq<FaceDetection>
    /** `process_frame_number`, a local of `run` kept across frames. */
    var processFrameNumber: int

    ghost predicate Valid()
      reads this, player
    {
      player.Valid() && processEvery != 0 && scale != 0.0
    }

    /** The service before its first frame: no one announced, nothing to
        draw, no frame counted. A zero `process_every` or scale would raise at
        the first frame. */
    constructor(names: seq<string>, threshold: real, debounce: real, overlayTimeout: real,
                processEvery: int, scale: real, hasPlayer: bool, engineAvailable: bool, now: real)
      requires processEvery != 0 && scale != 0.0
      ensures Valid() && fresh(player) && fresh(meter)
      ensures this.names == names && this.threshold == threshold && this.debounce == debounce
      ensures this.overlayTimeout == overlayTimeout && this.processEvery == processEvery && this.scale == scale
      ensures this.hasPlayer == hasPlayer && player.queue == [] && player.workerAlive == engineAvailable
      ensures meter.frameCount == 0 && meter.startTime == now
      ensures lastSpoken == map[] && lastDetections == [] && processFrameNumber == 0
    {
      this.names := names;
      this.threshold := threshold;
      this.debounce := debounce;
      this.overlayTimeout := overlayTimeout;
      this.processEvery := processEvery;
      this.scale := scale;
      this.hasPlayer := hasPlayer;
      player := new Audio.AudioPlayer(engineAvailable);
      meter := new FpsMeter.Meter(now);
      lastSpoken := map[];
      lastDetections := [];
      processFrameNumber := 0;
    }

    /** `_should_announce(name)` at `now`: a name never announced, or one
        announced more than `debounce` seconds ago. */
    predicate ShouldAnnounce(name: string, now: real)
      reads this
      ensures ShouldAnnounce(name, now) <==> name !in lastSpoken || now - lastSpoken[name] > debounce
    {
      Allows(lastSpoken, name, now, debounce, None)
    }

    /** The `_draw_detections` loop: the detections it draws at `now`. */
    method Drawn(dets: seq<FaceDetection>, now: real) returns (drawn: seq<FaceDetection>)
      ensures drawn == Fresh(dets, now, overlayTimeout)
    {
      drawn := [];
      var i := 0;
      while i < |dets|
        invariant 0 <= i <= |dets|
        invariant drawn == Fresh(dets[..i], now, overlayTimeout)
      {
        assert dets[..i + 1][..i] == dets[..i];
        if now - dets[i].timestamp > overlayTimeout {
          i := i + 1;
          continue;
        }
        drawn := drawn + [dets[i]];
        i := i + 1;
      }
      assert dets[..i] == dets;
    }

    /** The body of that loop for one detection `d`, seen at
        `d.timestamp`: a named face that `_should_announce` is announced (put
        on the player's queue when there is a player) and its time recorded;
        nothing else changes. */
    method AnnounceFace(d: FaceDetection)
      requires Valid()
      modifies this`lastSpoken, player
      ensures Valid()
      ensures var announce := d.name != UnknownName && Allows(old(lastSpoken), d.name, d.timestamp, debounce, None);
        && lastSpoken == (if announce then old(lastSpoken)[d.name := d.timestamp] else old(lastSpoken))
        && player.queue == (if announce && hasPlayer && |old(player.queue)| < Audio.Capacity
                            then old(player.queue) + [Audio.Utterance(Announcement(d))] else old(player.queue))
      ensures player.played == old(player.played) && player.workerAlive == old(player.workerAlive)
    {
      if d.name != UnknownName && ShouldAnnounce(d.name, d.timestamp) {
        var message := Announcement(d);
        if hasPlayer {
          var accepted := player.Speak(message);
        }
        lastSpoken := lastSpoken[d.name := d.timestamp];
      }
    }

    /** The loop over the faces of a processed frame. Each face becomes a
        detection; a named face that `_should_announce` is announced (put on
        the player's queue when there is a player) and its time recorded. */
    method RecognizeAll(faces: seq<FaceInput>, width: int, now: real) returns (detections: seq<FaceDetection>)
      requires Valid() && Comparable(faces, names)
      modifies this`lastSpoken, player
      ensures Valid()
      ensures detections == Detections(faces, names, threshold, scale, width, now)
      ensures lastSpoken == LedgerAfter(old(lastSpoken), Attempts(detections), debounce, None)
      ensures hasPlayer ==>
        player.queue == Audio.OfferAll(old(player.queue), Payloads(Announced(old(lastSpoken), Attempts(detections), debounce, None)))
      ensures !hasPlayer ==> player.queue == old(player.queue)
      ensures player.played == old(player.played) && player.workerAlive == old(player.workerAlive)
    {
      ghost var ledger0, queue0 := lastSpoken, player.queue;
      detections := [];
      var i := 0;
      while i < |faces|
        invariant 0 <= i <= |faces|
        invariant Valid()
        invariant Comparable(faces[..i], names)
        invariant detections == Detections(faces[..i], names, threshold, scale, width, now)
        invariant lastSpoken == LedgerAfter(ledger0, Attempts(detections), debounce, None)
        invariant player.queue ==
          if hasPlayer then Audio.OfferAll(queue0, Payloads(Announced(ledger0, Attempts(detections), debounce, None))) else queue0
        invariant player.played == old(player.played) && player.workerAlive == old(player.workerAlive)
      {
        var d := Detect(faces[i], names, threshold, scale, width, now);
        ghost var before := detections;
        detections := detections + [d];
        DetectionsSnoc(faces, i, names, threshold, scale, width, now);
        ghost var queue := player.queue;
        AnnounceFace(d);
        AnnounceSnoc(ledger0, before, d, debounce);
        QueueSnoc(ledger0, queue0, before, d, debounce, hasPlayer, queue, player.queue);
        i := i + 1;
      }
      assert faces[..i] == faces;
    }

    /** One pass of the `run` loop at `now` over a frame `width` pixels wide
        whose faces are `faces` (looked at only on a processed frame). The
        FPS meter counts every frame. A frame is processed iff the frame
        number is divisible by `process_every`. A processed frame replaces
        `last_detections` only when it found a face. `drawn` is what is drawn:
        the fresh part of the new detections, or of the kept ones. `quit` is
        the 'q' check that ends the loop after the frame is shown, on a
        skipped frame as on a processed one. */
    method Frame(faces: seq<FaceInput>, width: int, now: real, key: FaceKey)
      returns (processed: bool, drawn: seq<FaceDetection>, quit: bool)
      requires Valid() && Comparable(faces, names)
      modifies this`lastSpoken, this`lastDetections, this`processFrameNumber, player, meter
      ensures Valid()
      ensures processFrameNumber == old(processFrameNumber) + 1
      ensures meter.frameCount == old(meter.frameCount) + 1
      ensures processed <==> processFrameNumber % processEvery == 0
      ensures !processed ==>
        && lastSpoken == old(lastSpoken) && lastDetections == old(lastDetections)
        && player.queue == old(player.queue)
        && drawn == Fresh(old(lastDetections), now, overlayTimeout)
      ensures processed ==>
        var dets := Detections(faces, names, threshold, scale, width, now);
        && lastSpoken == LedgerAfter(old(lastSpoken), Attempts(dets), debounce, None)
        && lastDetections == (if dets != [] then dets else old(lastDetections))
        && drawn == Fresh(lastDetections, now, overlayTimeout)
        && player.queue == (if hasPlayer then Audio.OfferAll(old(player.queue), Payloads(Announced(old(lastSpoken), Attempts(dets), debounce, None)))
                            else old(player.queue))
      ensures player.played == old(player.played) && player.workerAlive == old(player.workerAlive)
      ensures quit <==> key == QuitKey
    {
      quit := key == QuitKey;
      meter.Tick(now);
      processFrameNumber := processFrameNumber + 1;
      if processFrameNumber % processEvery != 0 {
        processed := false;
        drawn := Drawn(lastDetections, now);
        return;
      }
      processed := true;
      var detections := RecognizeAll(faces, width, now);
      if |detections| > 0 {
        lastDetections := detections;
      }
      drawn := Drawn(if |detections| > 0 then detections else lastDetections, now);
    }
  }
}

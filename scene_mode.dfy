/**
 * Scene mode (blindaid/modes/scene/scene_mode.py): objects and faces in one
 * frame. Every `process_every`-th frame the detectors run; the boxes are
 * clamped to the frame and each detection gets a left/center/right position.
 * Frames in between reuse the last detections. Objects are summarised into
 * one sentence, spoken at most once per cooldown. Recognised faces are
 * announced through a per-name debounce ledger.
 */
module Scene {
  import opened Common
  import opened FaceMatch
  import opened Cooldown
  import Config

  datatype Kind = ObjectKind | FaceKind

  /** The `Detection` dataclass. */
  datatype Detection = Detection(name: string, box: Box, confidence: real, kind: Kind, position: string)

  /** One box of the object detector's output: its name, its confidence and
      its pixel box as the detector gave it. */
  datatype RawObject = RawObject(name: string, confidence: real, box: Box)

  /** One face of the face detector's output: its pixel box as the detector
      gave it, and the face's distances to the known encodings. */
  datatype RawFace = RawFace(box: Box, distances: seq<real>)

  /** The x coordinate of the middle of a box, `(x1 + x2) / 2` with true division. */
  function CenterX(b: Box): real
  {
    (b.x1 + b.x2) as real / 2.0
  }

  /** An object detection: the box clamped to the `w` by `h` frame, its
      position taken from the clamped box. */
  function ObjectDetection(o: RawObject, w: int, h: int): (d: Detection)
    ensures d.kind == ObjectKind && d.name == o.name && d.confidence == o.confidence
    ensures 0 <= d.box.x1 && 0 <= d.box.y1 && d.box.x2 <= w - 1 && d.box.y2 <= h - 1
    ensures d.position in {"left", "center", "right"}
  {
    var c := ClampBox(o.box, w, h);
    Detection(o.name, c, o.confidence, ObjectKind, Position(CenterX(c), w, ObjectWords))
  }

  /** A face detection: clamped box, recognised name, clamped confidence. */
  function FaceDetection(f: RawFace, gallery: seq<string>, w: int, h: int): (d: Detection)
    requires |f.distances| == |gallery|
    ensures d.kind == FaceKind && d.confidence >= 0.0
    ensures d.name == RecognizeFace(gallery, f.distances, Config.FaceThreshold).name
    ensures 0 <= d.box.x1 && 0 <= d.box.y1 && d.box.x2 <= w - 1 && d.box.y2 <= h - 1
    ensures d.position in {"left", "center", "right"}
  {
    var c := ClampBox(f.box, w, h);
    var m := RecognizeFaceClamped(gallery, f.distances, Config.FaceThreshold);
    Detection(m.name, c, m.confidence, FaceKind, Position(CenterX(c), w, ObjectWords))
  }

  /** The detections of one kind, in order. */
  function OfKind(dets: seq<Detection>, k: Kind): seq<Detection>
  {
    if dets == [] then []
    else (if dets[0].kind == k then [dets[0]] else []) + OfKind(dets[1..], k)
  }

  /** `[d for d in detections if d.kind == k]` keeps exactly the detections of kind `k`. */
  lemma {:induction false} OfKindFilters(dets: seq<Detection>, k: Kind)
    ensures forall d :: d in OfKind(dets, k) <==> d in dets && d.kind == k
    ensures |OfKind(dets, k)| <= |dets|
  {
    if dets != [] {
      OfKindFilters(dets[1..], k);
      assert dets == [dets[0]] + dets[1..];
    }
  }

  // ---------------------------------------------------------------------------
  // _summarize_objects
  // ---------------------------------------------------------------------------

  /** The labels of `dets`, each once, in order of first appearance (the key
      order of the `labels` dict). */
  function DistinctLabels(dets: seq<Detection>): seq<string>
    decreases |dets|
  {
    if dets == [] then []
    else
      var before := DistinctLabels(dets[..|dets| - 1]);
      var l := dets[|dets| - 1].name;
      if l in before then before else before + [l]
  }

  /** The positions at which `name` was seen. */
  function PositionsOf(dets: seq<Detection>, name: string): set<string>
  {
    set i | 0 <= i < |dets| && dets[i].name == name :: dets[i].position
  }

  /** One piece of the summary: "<name> on the <positions>", the positions
      sorted and each once. */
  function Piece(dets: seq<Detection>, name: string): string
  {
    name + " on the " + Join(", ", SortedSet(PositionsOf(dets, name)))
  }

  function Pieces(dets: seq<Detection>, labels: seq<string>): (r: seq<string>)
    ensures |r| == |labels|
    ensures forall i :: 0 <= i < |labels| ==> r[i] == Piece(dets, labels[i])
    decreases |labels|
  {
    if labels == [] then []
    else Pieces(dets, labels[..|labels| - 1]) + [Piece(dets, labels[|labels| - 1])]
  }

  /** What `_summarize_objects` returns for `dets`. */
  function ObjectSummary(dets: seq<Detection>): Option<string>
  {
    if dets == [] then None
    else
      var pieces := Pieces(dets, DistinctLabels(dets));
      if pieces != [] then Some("I see " + Join(", ", pieces)) else None
  }

  /** The summary's labels are exactly the labels present, each once. */
  lemma {:induction false} DistinctLabelsExact(dets: seq<Detection>)
    ensures forall x :: x in DistinctLabels(dets) <==> exists i :: 0 <= i < |dets| && dets[i].name == x
    ensures forall i, j :: 0 <= i < j < |DistinctLabels(dets)| ==> DistinctLabels(dets)[i] != DistinctLabels(dets)[j]
    decreases |dets|
  {
    if dets != [] {
      var init := dets[..|dets| - 1];
      DistinctLabelsExact(init);
      forall x
        ensures x in DistinctLabels(dets) <==> exists i :: 0 <= i < |dets| && dets[i].name == x
      {
        if x in DistinctLabels(dets) && x != dets[|dets| - 1].name {
          var i :| 0 <= i < |init| && init[i].name == x;
          assert dets[i].name == x;
        }
        if exists i :: 0 <= i < |dets| && dets[i].name == x {
          var i :| 0 <= i < |dets| && dets[i].name == x;
          if i < |init| {
            assert init[i].name == x;
          }
        }
      }
    }
  }

  /** A non-empty list of objects always gets a summary: "I see " and one
      piece per distinct name, in order of first appearance, each piece
      listing that name's positions sorted and without repeats. */
  lemma ObjectSummaryShape(dets: seq<Detection>)
    requires dets != []
    ensures var labels := DistinctLabels(dets);
      && |labels| > 0
      && ObjectSummary(dets) == Some("I see " + Join(", ", Pieces(dets, labels)))
      && (forall x :: x in labels <==> exists i :: 0 <= i < |dets| && dets[i].name == x)
      && (forall i, j :: 0 <= i < j < |labels| ==> labels[i] != labels[j])
  {
    DistinctLabelsExact(dets);
    assert dets[0].name in DistinctLabels(dets);
  }

  /** A non-empty object list always has a summary, and it is not blank. */
  lemma ObjectSummaryPresent(dets: seq<Detection>)
    requires dets != []
    ensures ObjectSummary(dets).Some? && ObjectSummary(dets).value != ""
  {
    DistinctLabelsExact(dets);
    assert dets[0].name in DistinctLabels(dets);
    var s := ObjectSummary(dets).value;
    assert s[0] == 'I';
  }

  /** The positions listed for a name are the positions it was seen at, sorted and each once. */
  lemma PieceListsPositions(dets: seq<Detection>, name: string)
    ensures var ps := SortedSet(PositionsOf(dets, name));
      && Piece(dets, name) == name + " on the " + Join(", ", ps)
      && (forall p :: p in ps <==> exists i :: 0 <= i < |dets| && dets[i].name == name && dets[i].position == p)
      && StrictlySorted(ps)
  {
    var ps := SortedSet(PositionsOf(dets, name));
    forall p | p in ps
      ensures exists i :: 0 <= i < |dets| && dets[i].name == name && dets[i].position == p
    {
      assert p in PositionsOf(dets, name);
    }
    forall p | exists i :: 0 <= i < |dets| && dets[i].name == name && dets[i].position == p
      ensures p in ps
    {
      var i :| 0 <= i < |dets| && dets[i].name == name && dets[i].position == p;
      assert dets[i].position in PositionsOf(dets, name);
    }
  }

  /** `_summarize_objects`: one pass groups the positions by name, in
      first-appearance order, and a second builds the pieces. */
  method SummarizeObjects(dets: seq<Detection>) returns (summary: Option<string>)
    ensures summary == ObjectSummary(dets)
  {
    if |dets| == 0 {
      return None;
    }
    var labels, positions := GroupPositions(dets);
    var pieces := BuildPieces(dets, labels, positions);
    if |pieces| > 0 {
      summary := Some("I see " + Join(", ", pieces));
    } else {
      summary := None;
    }
  }

  /** The first pass of `_summarize_objects`: the labels in order of first
      appearance, and for each the set of positions it was seen at. */
  method GroupPositions(dets: seq<Detection>) returns (labels: seq<string>, positions: map<string, set<string>>)
    ensures labels == DistinctLabels(dets)
    ensures forall l :: l in positions <==> l in labels
    ensures forall l :: l in positions ==> positions[l] == PositionsOf(dets, l)
  {
    labels := [];
    positions := map[];
    var i := 0;
    while i < |dets|
      invariant 0 <= i <= |dets|
      invariant labels == DistinctLabels(dets[..i])
      invariant forall l :: l in positions <==> l in labels
      invariant forall l :: l in positions ==> positions[l] == PositionsOf(dets[..i], l)
      invariant forall k :: 0 <= k < i ==> dets[k].name in positions
    {
      var d := dets[i];
      assert dets[..i + 1][..i] == dets[..i];
      assert dets[..i] + [d] == dets[..i + 1];
      GroupStep(dets[..i], d, positions);
      if d.name !in positions {
        labels := labels + [d.name];
        positions := positions[d.name := {}];
      }
      positions := positions[d.name := positions[d.name] + {d.position}];
      i := i + 1;
    }
    assert dets[..i] == dets;
  }

  /** One more detection in the first pass of `_summarize_objects`: its
      position joins its name's set, created empty if the name is new. */
  lemma GroupStep(dets: seq<Detection>, d: Detection, positions: map<string, set<string>>)
    requires forall l :: l in positions ==> positions[l] == PositionsOf(dets, l)
    requires forall k :: 0 <= k < |dets| ==> dets[k].name in positions
    ensures var after := positions[d.name := (if d.name in positions then positions[d.name] else {}) + {d.position}];
      forall l :: l in after ==> after[l] == PositionsOf(dets + [d], l)
  {
    if d.name !in positions {
      assert PositionsOf(dets, d.name) == {};
    }
    var after := positions[d.name := (if d.name in positions then positions[d.name] else {}) + {d.position}];
    forall l | l in after
      ensures after[l] == PositionsOf(dets + [d], l)
    {
      PositionsOfSnoc(dets, d, l);
    }
  }

  /** The second pass of `_summarize_objects`: one piece per label. */
  method BuildPieces(dets: seq<Detection>, labels: seq<string>, positions: map<string, set<string>>) returns (pieces: seq<string>)
    requires forall l :: l in labels ==> l in positions && positions[l] == PositionsOf(dets, l)
    ensures pieces == Pieces(dets, labels)
  {
    pieces := [];
    var j := 0;
    while j < |labels|
      invariant 0 <= j <= |labels|
      invariant pieces == Pieces(dets, labels[..j])
    {
      var name := labels[j];
      assert labels[..j + 1][..j] == labels[..j];
      pieces := pieces + [name + " on the " + Join(", ", SortedSet(positions[name]))];
      j := j + 1;
    }
    assert labels[..j] == labels;
  }

  lemma PositionsOfSnoc(dets: seq<Detection>, d: Detection, l: string)
    ensures PositionsOf(dets + [d], l) == PositionsOf(dets, l) + (if d.name == l then {d.position} else {})
  {
    var s := dets + [d];
    forall p | p in PositionsOf(s, l)
      ensures p in PositionsOf(dets, l) + (if d.name == l then {d.position} else {})
    {
      var i :| 0 <= i < |s| && s[i].name == l && s[i].position == p;
      if i < |dets| {
        assert dets[i] == s[i];
      }
    }
    forall p | p in PositionsOf(dets, l)
      ensures p in PositionsOf(s, l)
    {
      var i :| 0 <= i < |dets| && dets[i].name == l && dets[i].position == p;
      assert s[i] == dets[i];
    }
    if d.name == l {
      assert s[|dets|] == d;
    }
  }

  // ---------------------------------------------------------------------------
  // _build_face_messages
  // ---------------------------------------------------------------------------

  /** The announcement attempts of a call at `now`: each recognised face, in
      order, keyed by its name, with its position as what is said. */
  function FaceEvents(dets: seq<Detection>, now: real): seq<Event<string>>
    decreases |dets|
  {
    if dets == [] then []
    else
      var d := dets[|dets| - 1];
      var before := FaceEvents(dets[..|dets| - 1], now);
      if d.name == UnknownName then before else before + [Event(d.name, now, d.position)]
  }

  /** The attempts of one call all happen at `now`, and none is for "Unknown". */
  lemma {:induction false} FaceEventsAtNow(dets: seq<Detection>, now: real)
    ensures |FaceEvents(dets, now)| <= |dets|
    ensures forall i :: 0 <= i < |FaceEvents(dets, now)| ==>
      FaceEvents(dets, now)[i].time == now && FaceEvents(dets, now)[i].key != UnknownName
    decreases |dets|
  {
    if dets != [] {
      FaceEventsAtNow(dets[..|dets| - 1], now);
    }
  }

  /** "<name> is on the <position> side". */
  function FaceMessage(e: Event<string>): string
  {
    e.key + " is on the " + e.payload + " side"
  }

  /** One message per announcement, in order. */
  function FaceMessages(announced: seq<Event<string>>): seq<string>
    decreases |announced|
  {
    if announced == [] then []
    else FaceMessages(announced[..|announced| - 1]) + [FaceMessage(announced[|announced| - 1])]
  }

  /** Within one call every attempt is at the same `now`, so a name is
      announced at most once per call even when it appears on several faces;
      and across calls a name is announced again only after the debounce. */
  lemma FaceAnnouncedOncePerCall(ledger: map<string, real>, dets: seq<Detection>, now: real, debounce: real)
    requires debounce >= 0.0
    ensures KeysDistinct(Announced(ledger, FaceEvents(dets, now), debounce, Some(0.0)))
  {
    var events := FaceEvents(dets, now);
    var a := Announced(ledger, events, debounce, Some(0.0));
    FaceEventsAtNow(dets, now);
    AnnouncedIsSpacedPerKey(ledger, events, debounce, Some(0.0));
    AnnouncedAreEvents(ledger, events, debounce, Some(0.0));
    forall i, j | 0 <= i < j < |a|
      ensures a[i].key != a[j].key
    {
      assert a[i] in events && a[j] in events;
    }
  }

  /** One more face in `_build_face_messages`: an "Unknown" face changes
      nothing; any other is announced iff the ledger allows it at `now`
      (with 0 for a name not yet in it), and the ledger then records `now`. */
  lemma FaceStep(ledger0: map<string, real>, dets: seq<Detection>, d: Detection, now: real, debounce: real)
    ensures var events := FaceEvents(dets, now);
      var ledger := LedgerAfter(ledger0, events, debounce, Some(0.0));
      var msgs := FaceMessages(Announced(ledger0, events, debounce, Some(0.0)));
      var lastTime := if d.name in ledger then ledger[d.name] else 0.0;
      var fire := d.name != UnknownName && now - lastTime > debounce;
      && FaceMessages(Announced(ledger0, FaceEvents(dets + [d], now), debounce, Some(0.0)))
         == msgs + (if fire then [FaceMessage(Event(d.name, now, d.position))] else [])
      && LedgerAfter(ledger0, FaceEvents(dets + [d], now), debounce, Some(0.0))
         == (if fire then ledger[d.name := now] else ledger)
  {
    var events := FaceEvents(dets, now);
    FaceEventsSnoc(dets, d, now);
    if d.name != UnknownName {
      var e := Event(d.name, now, d.position);
      RunSnoc(ledger0, events, e, debounce, Some(0.0));
      FaceMessagesSnoc(Announced(ledger0, events, debounce, Some(0.0)), e);
    }
  }

  lemma FaceEventsSnoc(dets: seq<Detection>, d: Detection, now: real)
    ensures FaceEvents(dets + [d], now) ==
      FaceEvents(dets, now) + (if d.name == UnknownName then [] else [Event(d.name, now, d.position)])
  {
    assert (dets + [d])[..|dets|] == dets;
  }

  lemma FaceMessagesSnoc(a: seq<Event<string>>, e: Event<string>)
    ensures FaceMessages(a + [e]) == FaceMessages(a) + [FaceMessage(e)]
  {
    assert (a + [e])[..|a|] == a;
  }

  /** The object detections of a processed frame, in detector order. */
  function ObjectDetections(objects: seq<RawObject>, w: int, h: int): (r: seq<Detection>)
    ensures |r| == |objects|
    ensures forall i :: 0 <= i < |objects| ==> r[i] == ObjectDetection(objects[i], w, h)
  {
    seq(|objects|, i requires 0 <= i < |objects| => ObjectDetection(objects[i], w, h))
  }

  /** The face detections of a processed frame, in detector order. */
  function FaceDetections(faces: seq<RawFace>, gallery: seq<string>, w: int, h: int): (r: seq<Detection>)
    requires forall f :: f in faces ==> |f.distances| == |gallery|
    ensures |r| == |faces|
    ensures forall i :: 0 <= i < |faces| ==> r[i] == FaceDetection(faces[i], gallery, w, h)
  {
    seq(|faces|, i requires 0 <= i < |faces| => FaceDetection(faces[i], gallery, w, h))
  }

  /** `labeled` of `process_frame`: "<name> (<position>)" per face. */
  function LabeledFaces(dets: seq<Detection>): seq<string>
  {
    if dets == [] then [] else [dets[0].name + " (" + dets[0].position + ")"] + LabeledFaces(dets[1..])
  }

  predicate AnyKnown(dets: seq<Detection>)
  {
    exists i :: 0 <= i < |dets| && dets[i].name != UnknownName
  }

  /** Python truthiness of an optional string. */
  predicate Truthy(s: Option<string>)
  {
    s.Some? && s.value != ""
  }

  function InfoLines(objectSummary: Option<string>, faceSummary: Option<string>): seq<string>
  {
    (if Truthy(objectSummary) then [objectSummary.value] else [])
    + (if Truthy(faceSummary) then [faceSummary.value] else [])
  }

  class SceneMode {
    const audioEnabled: bool
    const knownNames: seq<string>
    var lastObjectSpeechTime: real
    const objectSpeechCooldown: real
    var lastFaceSpeech: map<string, real>
    const faceDebounce: real
    var frameCounter: int
    const processEvery: int
    var lastDetections: seq<Detection>
    var lastObjectSummary: Option<string>
    var lastFaceSummary: Option<string>

    ghost predicate Valid()
      reads this
    {
      processEvery >= 1 && faceDebounce >= 0.0
    }

    /** A fresh scene mode whose face gallery holds `knownNames`. */
    constructor(audioEnabled: bool, knownNames: seq<string>)
      ensures Valid()
      ensures this.audioEnabled == audioEnabled && this.knownNames == knownNames
      ensures lastObjectSpeechTime == 0.0 && objectSpeechCooldown == Config.SceneObjectCooldownSeconds
      ensures lastFaceSpeech == map[] && faceDebounce == Config.FaceDebounceSeconds
      ensures frameCounter == 0 && processEvery == Max(1, Config.SceneProcessEvery)
      ensures lastDetections == [] && lastObjectSummary == None && lastFaceSummary == None
    {
      this.audioEnabled := audioEnabled;
      this.knownNames := knownNames;
      lastObjectSpeechTime := 0.0;
      objectSpeechCooldown := Config.SceneObjectCooldownSeconds;
      lastFaceSpeech := map[];
      faceDebounce := Config.FaceDebounceSeconds;
      frameCounter := 0;
      processEvery := Max(1, Config.SceneProcessEvery);
      lastDetections := [];
      lastObjectSummary := None;
      lastFaceSummary := None;
    }

    /** `_build_face_messages`: the debounce ledger with an unseen name counted
        as last spoken at time 0. The ledger is updated whether or not the
        messages are then spoken. */
    method BuildFaceMessages(dets: seq<Detection>, now: real) returns (messages: seq<string>)
      modifies this`lastFaceSpeech
      ensures messages == FaceMessages(Announced(old(lastFaceSpeech), FaceEvents(dets, now), faceDebounce, Some(0.0)))
      ensures lastFaceSpeech == LedgerAfter(old(lastFaceSpeech), FaceEvents(dets, now), faceDebounce, Some(0.0))
    {
      messages := [];
      var i := 0;
      ghost var ledger0 := lastFaceSpeech;
      while i < |dets|
        invariant 0 <= i <= |dets|
        invariant messages == FaceMessages(Announced(ledger0, FaceEvents(dets[..i], now), faceDebounce, Some(0.0)))
        invariant lastFaceSpeech == LedgerAfter(ledger0, FaceEvents(dets[..i], now), faceDebounce, Some(0.0))
      {
        var det := dets[i];
        FaceStep(ledger0, dets[..i], det, now, faceDebounce);
        assert dets[..i] + [det] == dets[..i + 1];
        ghost var nextEvents := FaceEvents(dets[..i + 1], now);
        ghost var nextMsgs := FaceMessages(Announced(ledger0, nextEvents, faceDebounce, Some(0.0)));
        ghost var nextLedger := LedgerAfter(ledger0, nextEvents, faceDebounce, Some(0.0));
        if det.name != UnknownName {
          var lastTime := if det.name in lastFaceSpeech then lastFaceSpeech[det.name] else 0.0;
          if now - lastTime > faceDebounce {
            messages := messages + [FaceMessage(Event(det.name, now, det.position))];
            lastFaceSpeech := lastFaceSpeech[det.name := now];
          }
        }
        assert messages == nextMsgs;
        assert lastFaceSpeech == nextLedger;
        i := i + 1;
      }
      assert dets[..i] == dets;
    }

    /** The detection half of `process_frame`: counts the frame, and on a
        processed frame builds the detections (objects first, then faces)
        and caches them; on any other frame returns the cached ones. */
    method Detect(w: int, h: int, objects: seq<RawObject>, faces: seq<RawFace>) returns (detections: seq<Detection>)
      requires Valid()
      requires forall f :: f in faces ==> |f.distances| == |knownNames|
      modifies this`frameCounter, this`lastDetections
      ensures frameCounter == old(frameCounter) + 1
      ensures frameCounter % processEvery == 0 ==>
        && detections == ObjectDetections(objects, w, h) + FaceDetections(faces, knownNames, w, h)
        && lastDetections == detections
      ensures frameCounter % processEvery != 0 ==> detections == old(lastDetections) && lastDetections == old(lastDetections)
    {
      frameCounter := frameCounter + 1;
      var shouldProcess := frameCounter % processEvery == 0;
      if shouldProcess {
        var objectDets: seq<Detection> := [];
        var i := 0;
        while i < |objects|
          invariant 0 <= i <= |objects|
          invariant objectDets == seq(i, k requires 0 <= k < i => ObjectDetection(objects[k], w, h))
        {
          objectDets := objectDets + [ObjectDetection(objects[i], w, h)];
          i := i + 1;
        }
        var faceDets: seq<Detection> := [];
        var j := 0;
        while j < |faces|
          invariant 0 <= j <= |faces|
          invariant faceDets == seq(j, k requires 0 <= k < j => FaceDetection(faces[k], knownNames, w, h))
        {
          faceDets := faceDets + [FaceDetection(faces[j], knownNames, w, h)];
          j := j + 1;
        }
        assert objectDets == ObjectDetections(objects, w, h);
        assert faceDets == FaceDetections(faces, knownNames, w, h);
        detections := objectDets + faceDets;
        lastDetections := detections;
      } else {
        detections := lastDetections;
      }
    }

    /** The object half of the reporting: a non-empty object list replaces
        the stored summary, which is spoken when audio is on and the
        cooldown has passed. */
    method ReportObjects(objs: seq<Detection>, now: real) returns (speech: seq<string>)
      modifies this`lastObjectSummary, this`lastObjectSpeechTime
      ensures var spoken := objs != [] && audioEnabled && Due(old(lastObjectSpeechTime), now, objectSpeechCooldown);
        && lastObjectSummary == (if objs != [] then ObjectSummary(objs) else old(lastObjectSummary))
        && lastObjectSpeechTime == (if spoken then now else old(lastObjectSpeechTime))
        && speech == (if spoken then [ObjectSummary(objs).value] else [])
    {
      speech := [];
      if objs != [] {
        var summary := SummarizeObjects(objs);
        ObjectSummaryPresent(objs);
        if summary.Some? && summary.value != "" {
          lastObjectSummary := summary;
          if audioEnabled && now - lastObjectSpeechTime > objectSpeechCooldown {
            speech := speech + [summary.value];
            lastObjectSpeechTime := now;
          }
        }
      }
    }

    /** The face half of the reporting: the ledger runs over the faces, its
        messages are spoken when audio is on, and the face summary is
        replaced when some face is recognised. */
    method ReportFaces(fcs: seq<Detection>, now: real) returns (speech: seq<string>)
      modifies this`lastFaceSpeech, this`lastFaceSummary
      ensures var events := FaceEvents(fcs, now);
        && lastFaceSpeech == LedgerAfter(old(lastFaceSpeech), events, faceDebounce, Some(0.0))
        && speech == (if audioEnabled then FaceMessages(Announced(old(lastFaceSpeech), events, faceDebounce, Some(0.0))) else [])
        && lastFaceSummary == (if AnyKnown(fcs) then Some(Join(", ", LabeledFaces(fcs))) else old(lastFaceSummary))
    {
      speech := [];
      if fcs != [] {
        var faceMessages := BuildFaceMessages(fcs, now);
        if audioEnabled && faceMessages != [] {
          speech := speech + faceMessages;
        }
        if exists k :: 0 <= k < |fcs| && fcs[k].name != UnknownName {
          lastFaceSummary := Some(Join(", ", LabeledFaces(fcs)));
        }
      }
    }

    /** `process_frame` at `now` on a `w` by `h` frame. `objects` and `faces`
        are what the detectors return when they run (the objects already
        filtered by the detector at `object_confidence`). The speech is the
        object summary, if due, followed by the face announcements. */
    method ProcessFrame(now: real, w: int, h: int, objects: seq<RawObject>, faces: seq<RawFace>)
      returns (detections: seq<Detection>, info: seq<string>, speech: seq<string>)
      requires Valid()
      requires forall f :: f in faces ==> |f.distances| == |knownNames|
      modifies this`frameCounter, this`lastDetections, this`lastObjectSummary, this`lastObjectSpeechTime
      modifies this`lastFaceSpeech, this`lastFaceSummary
      ensures Valid()
      ensures frameCounter == old(frameCounter) + 1
      ensures frameCounter % processEvery == 0 ==>
        && detections == ObjectDetections(objects, w, h) + FaceDetections(faces, knownNames, w, h)
        && lastDetections == detections
      ensures frameCounter % processEvery != 0 ==> detections == old(lastDetections) && lastDetections == old(lastDetections)
      ensures var objs := OfKind(detections, ObjectKind);
        var fcs := OfKind(detections, FaceKind);
        var events := FaceEvents(fcs, now);
        var spoken := objs != [] && audioEnabled && Due(old(lastObjectSpeechTime), now, objectSpeechCooldown);
        && lastObjectSummary == (if objs != [] then ObjectSummary(objs) else old(lastObjectSummary))
        && lastObjectSpeechTime == (if spoken then now else old(lastObjectSpeechTime))
        && lastFaceSpeech == LedgerAfter(old(lastFaceSpeech), events, faceDebounce, Some(0.0))
        && lastFaceSummary == (if AnyKnown(fcs) then Some(Join(", ", LabeledFaces(fcs))) else old(lastFaceSummary))
        && speech == (if spoken then [ObjectSummary(objs).value] else [])
                     + (if audioEnabled then FaceMessages(Announced(old(lastFaceSpeech), events, faceDebounce, Some(0.0))) else [])
      ensures info == InfoLines(lastObjectSummary, lastFaceSummary)
    {
      detections := Detect(w, h, objects, faces);
      var objectSpeech := ReportObjects(OfKind(detections, ObjectKind), now);
      var faceSpeech := ReportFaces(OfKind(detections, FaceKind), now);
      speech := objectSpeech + faceSpeech;
      info := InfoLines(lastObjectSummary, lastFaceSummary);
    }

    /** `on_enter`: only the frame counter is reset. */
    method OnEnter()
      modifies this
      ensures frameCounter == 0
      ensures lastObjectSpeechTime == old(lastObjectSpeechTime) && lastFaceSpeech == old(lastFaceSpeech)
      ensures lastDetections == old(lastDetections)
      ensures lastObjectSummary == old(lastObjectSummary) && lastFaceSummary == old(lastFaceSummary)
    {
      frameCounter := 0;
    }
  }
}

/**
 * People mode (blindaid/modes/people/people_mode.py): a one-shot scan. For
 * `duration` seconds after `on_enter` every frame's faces are recognised and
 * their names collected. The first frame after that marks the scan finished
 * and reports a summary. Later frames report only "Scan complete" until the
 * next `on_enter`.
 */
module People {
  import opened Common
  import opened FaceMatch
  import Config

  /** How loading the face models ends. `DetectorFailed` is the YOLO constructor
      raising. `GalleryFailed` is the detector loading and reading the known
      faces raising after `partial` was appended. `LoadOk` is success with the
      gallery's names. */
  datatype LoadOutcome = DetectorFailed | GalleryFailed(partial: seq<string>) | LoadOk(names: seq<string>)

  /** The known names among the people seen, sorted, each once. */
  function KnownNames(people: set<string>): seq<string>
  {
    SortedSet(people - {UnknownName})
  }

  /** `_summarise`: the info lines and the speech reported when a scan ends.
      No one seen gives "No one found". Only unrecognised faces give "No one
      recognized". Otherwise "I see " is followed by the known names joined by
      " and ". Each name appears exactly once, in sorted order, and "Unknown"
      is never among them. */
  function Summary(people: set<string>): (r: (seq<string>, seq<string>))
    ensures |r.0| == 2 && r.0[0] == "Scan complete" && |r.1| == 1
    ensures people == {} ==> r.0[1] == "No one found" && r.1[0] == "No one found."
    ensures people != {} && people <= {UnknownName} ==>
      r.0[1] == "No one recognized" && r.1[0] == "No one recognized."
    ensures !(people <= {UnknownName}) ==>
      var names := KnownNames(people);
      && r.0[1] == r.1[0] == "I see " + Join(" and ", names)
      && |names| > 0
      && (forall x :: x in names <==> x in people && x != UnknownName)
      && (forall i, j :: 0 <= i < j < |names| ==> names[i] != names[j])
  {
    if people == {} then (["Scan complete", "No one found"], ["No one found."])
    else
      var names := KnownNames(people);
      if |names| > 0 then
        forall i, j | 0 <= i < j < |names| ensures names[i] != names[j] {
          StrictlySortedHasNoDuplicates(names, i, j);
        }
        (["Scan complete", "I see " + Join(" and ", names)], ["I see " + Join(" and ", names)])
      else
        assert |people - {UnknownName}| == 0;
        (["Scan complete", "No one recognized"], ["No one recognized."])
  }

  /** Every face of a frame has one distance per gallery entry. */
  predicate Sized(faces: seq<seq<real>>, gallery: seq<string>)
  {
    forall k :: 0 <= k < |faces| ==> |faces[k]| == |gallery|
  }

  /** The names recognised in one frame's faces, each face given by its
      distances to the gallery. */
  function NamesSeen(gallery: seq<string>, faces: seq<seq<real>>, threshold: real): set<string>
    requires Sized(faces, gallery)
    decreases |faces|
  {
    if faces == [] then {}
    else
      var init := faces[..|faces| - 1];
      NamesSeen(gallery, init, threshold) + {RecognizeFaceClamped(gallery, faces[|faces| - 1], threshold).name}
  }

  /** Every face adds its name: a frame with faces always adds something, and
      only names of the gallery or "Unknown". */
  lemma {:induction false} NamesSeenAreMatches(gallery: seq<string>, faces: seq<seq<real>>, threshold: real)
    requires Sized(faces, gallery)
    requires UnknownName !in gallery
    ensures faces != [] ==> NamesSeen(gallery, faces, threshold) != {}
    ensures forall x :: x in NamesSeen(gallery, faces, threshold) ==> x in gallery || x == UnknownName
    decreases |faces|
  {
    if faces != [] {
      var init := faces[..|faces| - 1];
      NamesSeenAreMatches(gallery, init, threshold);
      RecognizedIffWithinThreshold(gallery, faces[|faces| - 1], threshold);
    }
  }

  class PeopleMode {
    const audioEnabled: bool
    var startTime: real
    const duration: real
    var finished: bool
    /** `face_detector is not None`. */
    var detectorReady: bool
    var knownNames: seq<string>
    /** `_loaded`. */
    var loaded: bool
    var detectedPeople: set<string>

    constructor(audioEnabled: bool)
      ensures this.audioEnabled == audioEnabled
      ensures startTime == 0.0 && duration == 5.0 && !finished
      ensures !detectorReady && knownNames == [] && !loaded && detectedPeople == {}
    {
      this.audioEnabled := audioEnabled;
      startTime := 0.0;
      duration := 5.0;
      finished := false;
      detectorReady := false;
      knownNames := [];
      loaded := false;
      detectedPeople := {};
    }

    /** `_ensure_loaded`: does nothing once loaded. Otherwise it loads: only a
        full success sets `loaded`, so a failed load is retried next time. */
    method EnsureLoaded(outcome: LoadOutcome)
      modifies this
      ensures old(loaded) ==> detectorReady == old(detectorReady) && knownNames == old(knownNames) && loaded
      ensures !old(loaded) ==> match outcome
        case DetectorFailed =>
          detectorReady == old(detectorReady) && knownNames == old(knownNames) && !loaded
        case GalleryFailed(partial) =>
          detectorReady && knownNames == old(knownNames) + partial && !loaded
        case LoadOk(names) =>
          detectorReady && knownNames == old(knownNames) + names && loaded
      ensures startTime == old(startTime) && finished == old(finished) && detectedPeople == old(detectedPeople)
    {
      if loaded {
        return;
      }
      match outcome
      case DetectorFailed =>
      case GalleryFailed(partial) =>
        detectorReady := true;
        knownNames := knownNames + partial;
      case LoadOk(names) =>
        detectorReady := true;
        knownNames := knownNames + names;
        loaded := true;
    }

    /** `on_enter`: loads the models if needed and starts a fresh scan at `now`. */
    method OnEnter(now: real, outcome: LoadOutcome)
      modifies this
      ensures startTime == now && !finished && detectedPeople == {}
      ensures old(loaded) ==> loaded && knownNames == old(knownNames) && detectorReady == old(detectorReady)
      ensures !old(loaded) ==> match outcome
        case DetectorFailed =>
          detectorReady == old(detectorReady) && knownNames == old(knownNames) && !loaded
        case GalleryFailed(partial) =>
          detectorReady && knownNames == old(knownNames) + partial && !loaded
        case LoadOk(names) =>
          detectorReady && knownNames == old(knownNames) + names && loaded
    {
      EnsureLoaded(outcome);
      startTime := now;
      finished := false;
      detectedPeople := {};
    }

    /** `is_finished`. */
    function IsFinished(): bool
      reads this
    {
      finished
    }

    /** `process_frame` at `now`, with the frame's faces given as distance
        lists. A finished scan reports "Scan complete" and changes nothing.
        The first frame more than `duration` after the start finishes the scan
        and reports the summary, the only speech of the scan. Before that the
        frame's names are added to `detectedPeople`, which only grows. */
    method ProcessFrame(now: real, faces: seq<seq<real>>) returns (info: seq<string>, speech: seq<string>)
      requires Sized(faces, knownNames)
      modifies this`finished, this`detectedPeople
      ensures startTime == old(startTime) && knownNames == old(knownNames) && detectorReady == old(detectorReady)
      ensures loaded == old(loaded)
      ensures old(finished) ==>
        info == ["Scan complete"] && speech == [] && finished && detectedPeople == old(detectedPeople)
      ensures !old(finished) && now - old(startTime) > duration ==>
        finished && (info, speech) == Summary(old(detectedPeople)) && detectedPeople == old(detectedPeople)
      ensures !old(finished) && now - old(startTime) <= duration ==>
        && !finished && info == ["Scanning for people..."] && speech == []
        && detectedPeople == old(detectedPeople) + (if old(detectorReady) then NamesSeen(knownNames, faces, Config.FaceThreshold) else {})
      ensures old(detectedPeople) <= detectedPeople
    {
      if finished {
        return ["Scan complete"], [];
      }
      var elapsed := now - startTime;
      if elapsed > duration {
        finished := true;
        var summary := Summary(detectedPeople);
        info, speech := summary.0, summary.1;
        return;
      }
      info := ["Scanning for people..."];
      speech := [];
      if !detectorReady {
        return;
      }
      CollectNames(faces);
    }

    /** The loop of `process_frame` over the frame's faces: each face's name
        is added to `detectedPeople`. */
    method CollectNames(faces: seq<seq<real>>)
      requires Sized(faces, knownNames)
      modifies this`detectedPeople
      ensures detectedPeople == old(detectedPeople) + NamesSeen(knownNames, faces, Config.FaceThreshold)
    {
      var i := 0;
      while i < |faces|
        invariant 0 <= i <= |faces|
        invariant detectedPeople == old(detectedPeople) + NamesSeen(knownNames, faces[..i], Config.FaceThreshold)
      {
        assert faces[..i + 1][..i] == faces[..i];
        var m := RecognizeFaceClamped(knownNames, faces[i], Config.FaceThreshold);
        detectedPeople := detectedPeople + {m.name};
        i := i + 1;
      }
      assert faces[..|faces|] == faces;
    }
  }

  /** A scan speaks once: the call that finishes it carries the summary, and
      the call after it, with no `on_enter` in between, says nothing. */
  method ScanSpeaksOnce(mode: PeopleMode, now1: real, now2: real, faces: seq<seq<real>>)
    returns (speech1: seq<string>, speech2: seq<string>)
    requires !mode.finished && now1 - mode.startTime > mode.duration
    requires Sized(faces, mode.knownNames)
    modifies mode
    ensures |speech1| == 1 && speech2 == [] && mode.finished
  {
    var info1, info2;
    info1, speech1 := mode.ProcessFrame(now1, faces);
    info2, speech2 := mode.ProcessFrame(now2, faces);
  }
}

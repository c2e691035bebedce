/**
 * Reading mode (blindaid/modes/ocr/reading_mode.py): OCR on every
 * `skip + 1`-th frame, the last parse kept in between, and the recognised
 * text read aloud once it has been stable for three calls and the cooldown
 * has passed. Loading the OCR engine and running it are foreign code: whether
 * the engine loads and what it returns are inputs.
 */
module Reading {
  import opened Common
  import opened OcrData
  import Config
  import Cooldown

  /** One parsed line: the text, its score and its box. */
  datatype TextItem = TextItem(text: string, score: real, box: LineBox)

  // ---------------------------------------------------------------------------
  // _parse_result
  // ---------------------------------------------------------------------------

  /** Entry `i` of a dictionary page: skipped when its text is empty or it has
      no polygon; the score defaults to 1.0. */
  function DictItem(p: Page, i: int): Option<TextItem>
    requires p.DictPage? && 0 <= i < |p.texts|
  {
    var polys := Polys(p);
    if p.texts[i] == "" then None
    else if i < |polys| && polys[i].Some? then Some(TextItem(p.texts[i], ScoreAt(p.scores, i), PointList(polys[i].value)))
    else None
  }

  /** The text of a legacy line: the first element of a tuple or list, or
      `str(text_info)` for anything else. */
  function LineText(info: TextInfo): string
  {
    match info
    case InfoTuple(text, _) => text
    case InfoList(text, _, _) => text
    case InfoText(s) => s
    case InfoOther(repr) => repr
  }

  /** The score of a legacy line: the second element of a tuple or list when
      there is one, 1.0 otherwise. */
  function LineScore(info: TextInfo): real
  {
    match info
    case InfoTuple(_, score) => if score.Some? then score.value else 1.0
    case InfoList(_, score, _) => if score.Some? then score.value else 1.0
    case InfoText(_) => 1.0
    case InfoOther(_) => 1.0
  }

  /** A legacy line: skipped when it is not a pair or its box cannot be
      converted; its text is kept even when empty. */
  function LineItem(line: Line): Option<TextItem>
  {
    match line
    case NotAPair => None
    case Pair(box, info) => if box.Unconvertible? then None else Some(TextItem(LineText(info), LineScore(info), box))
  }

  /** What each entry of a page yields, in order. */
  function Entries(p: Page): seq<Option<TextItem>>
  {
    match p
    case FalsyPage => []
    case DictPage(texts, _, _, _) => seq(|texts|, i requires 0 <= i < |texts| => DictItem(p, i))
    case ListPage(lines) => seq(|lines|, i requires 0 <= i < |lines| => LineItem(lines[i]))
  }

  /** What `_parse_result` returns. */
  function Parse(result: OcrResult): seq<TextItem>
  {
    match result
    case NoResult => []
    case Result(p) => Somes(Entries(p))
  }

  /** Entry `i` of a dictionary page is readable, and reads as `it`. */
  predicate DictReads(p: Page, i: int, it: TextItem)
    requires p.DictPage?
  {
    && 0 <= i < |p.texts| && p.texts[i] != "" && i < |Polys(p)| && Polys(p)[i].Some?
    && it == TextItem(p.texts[i], ScoreAt(p.scores, i), PointList(Polys(p)[i].value))
  }

  /** Line `i` of a legacy page is readable, and reads as `it`. */
  predicate LineReads(lines: seq<Line>, i: int, it: TextItem)
  {
    && 0 <= i < |lines| && lines[i].Pair? && !lines[i].box.Unconvertible?
    && it == TextItem(LineText(lines[i].info), LineScore(lines[i].info), lines[i].box)
  }

  /** An empty or falsy result parses to nothing. A dictionary page keeps
      exactly the entries with a non-empty text and a polygon, with the score
      defaulting to 1.0. A legacy page keeps exactly the pairs whose box
      converts. Nothing is invented: there are never more items than entries. */
  lemma ParseKeepsReadableEntries(result: OcrResult)
    ensures result.NoResult? || result.first.FalsyPage? ==> Parse(result) == []
    ensures result.Result? ==> |Parse(result)| <= |Entries(result.first)|
    ensures result.Result? && result.first.DictPage? ==>
      forall it :: it in Parse(result) <==> exists i :: DictReads(result.first, i, it)
    ensures result.Result? && result.first.ListPage? ==>
      forall it :: it in Parse(result) <==> exists i :: LineReads(result.first.lines, i, it)
  {
    if result.Result? {
      var p := result.first;
      var e := Entries(p);
      SomesExact(e);
      if p.DictPage? {
        forall it ensures it in Parse(result) <==> exists i :: DictReads(p, i, it)
        {
          if it in Parse(result) {
            var i :| 0 <= i < |e| && e[i] == Some(it);
            assert e[i] == DictItem(p, i);
            assert DictReads(p, i, it);
          }
          if exists i :: DictReads(p, i, it) {
            var i :| DictReads(p, i, it);
            assert e[i] == Some(it);
          }
        }
      } else if p.ListPage? {
        var lines := p.lines;
        forall it ensures it in Parse(result) <==> exists i :: LineReads(lines, i, it)
        {
          if it in Parse(result) {
            var i :| 0 <= i < |e| && e[i] == Some(it);
            assert e[i] == LineItem(lines[i]);
            assert LineReads(lines, i, it);
          }
          if exists i :: LineReads(lines, i, it) {
            var i :| LineReads(lines, i, it);
            assert e[i] == Some(it);
          }
        }
      }
    }
  }

  /** `_parse_result`: one loop over the page's entries, appending what each yields. */
  method ParseResult(result: OcrResult) returns (parsed: seq<TextItem>)
    ensures parsed == Parse(result)
  {
    parsed := [];
    if result.NoResult? {
      return;
    }
    var p := result.first;
    var entries := Entries(p);
    var i := 0;
    while i < |entries|
      invariant 0 <= i <= |entries|
      invariant parsed == Somes(entries[..i])
    {
      assert entries[..i + 1][..i] == entries[..i];
      var item := if p.DictPage? then DictItem(p, i) else LineItem(p.lines[i]);
      assert item == entries[i];
      if item.Some? {
        parsed := parsed + [item.value];
      }
      i := i + 1;
    }
    assert entries[..i] == entries;
  }

  // ---------------------------------------------------------------------------
  // The text shown and the text spoken
  // ---------------------------------------------------------------------------

  /** `[text for text, score, _ in data if text]`. */
  function NonEmptyTexts(data: seq<TextItem>): seq<string>
  {
    if data == [] then []
    else (if data[0].text != "" then [data[0].text] else []) + NonEmptyTexts(data[1..])
  }

  /** `[text for text, score, _ in data if score >= threshold]`. */
  function HighConfTexts(data: seq<TextItem>, threshold: real): seq<string>
  {
    if data == [] then []
    else (if data[0].score >= threshold then [data[0].text] else []) + HighConfTexts(data[1..], threshold)
  }

  /** The info text: the non-empty texts joined by spaces. */
  function JoinedText(data: seq<TextItem>): string
  {
    Join(" ", NonEmptyTexts(data))
  }

  /** The info text is empty exactly when no item has a non-empty text, so
      `if info_text:` is the test "some text was read". */
  lemma {:induction false} JoinedTextEmptyIffNoText(data: seq<TextItem>)
    ensures JoinedText(data) == "" <==> forall k :: 0 <= k < |data| ==> data[k].text == ""
    decreases |data|
  {
    if data != [] {
      JoinedTextEmptyIffNoText(data[1..]);
      assert forall k :: 1 <= k < |data| ==> data[k] == data[1..][k - 1];
      var rest := NonEmptyTexts(data[1..]);
      if data[0].text != "" {
        assert NonEmptyTexts(data) == [data[0].text] + rest;
        if |rest| > 0 {
          assert Join(" ", [data[0].text] + rest) == data[0].text + " " + Join(" ", rest);
        }
      } else {
        assert NonEmptyTexts(data) == rest;
      }
    }
  }

  /** The stability rule: the same text again counts one more repeat; a new
      text restarts the count at 0 and becomes the remembered text. */
  function NextStable(lastText: string, count: int, text: string): (string, int)
  {
    if text == lastText then (lastText, count + 1) else (text, 0)
  }

  /** The remembered text and the count after a run of calls with non-empty
      info texts `texts`. */
  function Stabilize(lastText: string, count: int, texts: seq<string>): (string, int)
    decreases |texts|
  {
    if texts == [] then (lastText, count)
    else
      var before := Stabilize(lastText, count, texts[..|texts| - 1]);
      NextStable(before.0, before.1, texts[|texts| - 1])
  }

  /** The count is a count of repeats: after a run, the remembered text is the
      last one, and a count of `c` means the last text was also the text of
      each of the `c` calls before it (as far back as the run goes). */
  lemma {:induction false} StableCountMeansRepeats(lastText: string, count: int, texts: seq<string>)
    requires count >= 0
    ensures texts != [] ==> Stabilize(lastText, count, texts).0 == texts[|texts| - 1]
    ensures Stabilize(lastText, count, texts).1 >= 0
    ensures forall j :: 0 <= j < |texts| && |texts| - 1 - j <= Stabilize(lastText, count, texts).1 ==>
      texts[j] == texts[|texts| - 1]
    decreases |texts|
  {
    if texts != [] {
      var init := texts[..|texts| - 1];
      StableCountMeansRepeats(lastText, count, init);
      var before := Stabilize(lastText, count, init);
      var t := texts[|texts| - 1];
      if t == before.0 && init != [] {
        assert init[|init| - 1] == t;
        forall j | 0 <= j < |texts| && |texts| - 1 - j <= before.1 + 1
          ensures texts[j] == t
        {
          if j < |texts| - 1 {
            assert texts[j] == init[j];
          }
        }
      }
    }
  }

  /** The speech gate of `process_frame`. */
  predicate SpeakNow(audioEnabled: bool, high: seq<string>, stable: int, now: real, lastSpoken: real, cooldown: real)
  {
    audioEnabled && high != [] && stable >= 2 && Cooldown.Due(lastSpoken, now, cooldown)
  }

  /** The status lines that follow the cached parse: the info text when
      there is text, and otherwise why there is none. */
  function StatusLines(data: seq<TextItem>, ocrFailed: bool): seq<string>
  {
    if data != [] then (if JoinedText(data) != "" then [JoinedText(data)] else [])
    else if ocrFailed then ["OCR engine unavailable - check PaddleOCR install"]
    else ["No text detected - show printed text to the camera"]
  }

  /** With nothing cached the status says why, naming the failed engine when
      it failed; with text cached it is exactly the info text. */
  lemma StatusExplainsMissingText(data: seq<TextItem>, ocrFailed: bool)
    ensures data == [] && ocrFailed ==> StatusLines(data, ocrFailed) == ["OCR engine unavailable - check PaddleOCR install"]
    ensures data == [] && !ocrFailed ==> StatusLines(data, ocrFailed) == ["No text detected - show printed text to the camera"]
    ensures (exists k :: 0 <= k < |data| && data[k].text != "") ==> StatusLines(data, ocrFailed) == [JoinedText(data)]
    ensures data != [] && (forall k :: 0 <= k < |data| ==> data[k].text == "") ==> StatusLines(data, ocrFailed) == []
  {
    JoinedTextEmptyIffNoText(data);
  }

  /** A box `cv2.polylines` and `x, y = box[0]` can draw: a non-empty list
      of (x, y) points. A flat list of numbers is not a list of points, and
      an empty box has no first point; either raises. */
  predicate Drawable(b: LineBox)
  {
    b.PointList? && |b.pts| > 0
  }

  /** Drawing the cached parse at the start of `process_frame` raises: some
      cached box cannot be drawn. */
  predicate DrawingRaises(items: seq<TextItem>)
  {
    exists i :: 0 <= i < |items| && !Drawable(items[i].box)
  }

  /** Which OCR results leave a cache that the next `process_frame` cannot
      draw. On a dictionary page: a kept entry whose polygon has no points. On
      a legacy page: a kept pair whose box is a flat list of numbers or has no
      points. An empty or falsy result never does. */
  lemma UndrawableEntries(result: OcrResult)
    ensures result.NoResult? || result.first.FalsyPage? ==> !DrawingRaises(Parse(result))
    ensures result.Result? && result.first.DictPage? ==>
      (DrawingRaises(Parse(result)) <==>
        exists i :: 0 <= i < |result.first.texts| && result.first.texts[i] != ""
          && i < |Polys(result.first)| && Polys(result.first)[i] == Some([]))
    ensures result.Result? && result.first.ListPage? ==>
      (DrawingRaises(Parse(result)) <==>
        exists i :: 0 <= i < |result.first.lines| && result.first.lines[i].Pair?
          && (result.first.lines[i].box.FlatList? || result.first.lines[i].box == PointList([])))
  {
    ParseKeepsReadableEntries(result);
    if result.Result? {
      var p := result.first;
      var items := Parse(result);
      if p.DictPage? {
        if DrawingRaises(items) {
          var k :| 0 <= k < |items| && !Drawable(items[k].box);
          assert items[k] in items;
          var i :| DictReads(p, i, items[k]);
          assert Polys(p)[i] == Some([]);
        }
        if exists i :: 0 <= i < |p.texts| && p.texts[i] != "" && i < |Polys(p)| && Polys(p)[i] == Some([]) {
          var i :| 0 <= i < |p.texts| && p.texts[i] != "" && i < |Polys(p)| && Polys(p)[i] == Some([]);
          var it := TextItem(p.texts[i], ScoreAt(p.scores, i), PointList([]));
          assert DictReads(p, i, it);
          assert it in items;
          var k :| 0 <= k < |items| && items[k] == it;
          assert !Drawable(items[k].box);
        }
      } else if p.ListPage? {
        var lines := p.lines;
        if DrawingRaises(items) {
          var k :| 0 <= k < |items| && !Drawable(items[k].box);
          assert items[k] in items;
          var i :| LineReads(lines, i, items[k]);
        }
        if exists i :: 0 <= i < |lines| && lines[i].Pair? && (lines[i].box.FlatList? || lines[i].box == PointList([])) {
          var i :| 0 <= i < |lines| && lines[i].Pair? && (lines[i].box.FlatList? || lines[i].box == PointList([]));
          var it := TextItem(LineText(lines[i].info), LineScore(lines[i].info), lines[i].box);
          assert LineReads(lines, i, it);
          assert it in items;
          var k :| 0 <= k < |items| && items[k] == it;
          assert !Drawable(items[k].box);
        }
      }
    }
  }

  /** OCR runs on the frames whose (incremented) number is a multiple of `skip + 1`. */
  predicate ShouldRun(frameCount: int, skip: nat)
  {
    frameCount % (skip + 1) == 0
  }

  class ReadingMode {
    const audioEnabled: bool
    /** `max(0, OCR_FRAME_SKIP)`. */
    const skip: nat := Max(0, Config.OcrFrameSkip)
    const cooldown: real := Config.OcrCooldownSeconds
    const confidenceThreshold: real := Config.OcrConfidenceThreshold
    /** `self.ocr is not None`. */
    var ocrReady: bool
    /** `_ocr_failed`. */
    var ocrFailed: bool
    var frameCount: int
    var lastSpoken: real
    var lastText: string
    var stableTextCount: int
    var lastTextData: seq<TextItem>
    var infoLines: seq<string>

    constructor(audioEnabled: bool)
      ensures this.audioEnabled == audioEnabled
      ensures !ocrReady && !ocrFailed && frameCount == 0
      ensures lastSpoken == 0.0 && lastText == "" && stableTextCount == 0
      ensures lastTextData == [] && infoLines == []
    {
      this.audioEnabled := audioEnabled;
      ocrReady := false;
      ocrFailed := false;
      frameCount := 0;
      lastSpoken := 0.0;
      lastText := "";
      stableTextCount := 0;
      lastTextData := [];
      infoLines := [];
    }

    /** `_ensure_ocr`: an engine that is loaded, or that failed to load, is
        never loaded again; the first attempt either loads it or records the
        failure for good. The result says whether an engine is there. */
    method EnsureOcr(engineLoads: bool) returns (ready: bool)
      modifies this`ocrReady, this`ocrFailed
      ensures old(ocrReady) || old(ocrFailed) ==> ocrReady == old(ocrReady) && ocrFailed == old(ocrFailed)
      ensures !old(ocrReady) && !old(ocrFailed) ==> ocrReady == engineLoads && ocrFailed == !engineLoads
      ensures ready == ocrReady
    {
      if ocrReady || ocrFailed {
        return ocrReady;
      }
      if engineLoads {
        ocrReady := true;
      } else {
        ocrFailed := true;
      }
      ready := ocrReady;
    }

    /** The first half of `process_frame`: count the frame and, on the frames
        that run OCR, replace the cached parse by the parse of this frame
        (no result when the engine is missing). */
    method Refresh(engineLoads: bool, result: OcrResult) returns (info: seq<string>)
      modifies this`frameCount, this`ocrReady, this`ocrFailed, this`lastTextData
      ensures frameCount == old(frameCount) + 1
      ensures ShouldRun(frameCount, skip) ==>
        && (old(ocrReady) || old(ocrFailed) ==> ocrReady == old(ocrReady) && ocrFailed == old(ocrFailed))
        && (!old(ocrReady) && !old(ocrFailed) ==> ocrReady == engineLoads && ocrFailed == !engineLoads)
        && lastTextData == Parse(if ocrReady then result else NoResult)
        && info == []
      ensures !ShouldRun(frameCount, skip) ==>
        && ocrReady == old(ocrReady) && ocrFailed == old(ocrFailed) && lastTextData == old(lastTextData)
        && info == (if lastTextData == [] && ocrFailed then ["OCR engine unavailable - see logs"] else [])
    {
      info := [];
      frameCount := frameCount + 1;
      if frameCount % (skip + 1) == 0 {
        var ready := EnsureOcr(engineLoads);
        var parsed := ParseResult(if ready then result else NoResult);
        lastTextData := parsed;
      } else if lastTextData == [] && ocrFailed {
        info := ["OCR engine unavailable - see logs"];
      }
    }

    /** The second half of `process_frame`: with text in the cached parse,
        update the stability count and speak the high-confidence texts when
        the gate opens; report the status lines. */
    method Report(now: real) returns (info: seq<string>, speech: seq<string>)
      modifies this`lastText, this`stableTextCount, this`lastSpoken
      ensures info == StatusLines(lastTextData, ocrFailed)
      ensures JoinedText(lastTextData) == "" ==>
        lastText == old(lastText) && stableTextCount == old(stableTextCount) && lastSpoken == old(lastSpoken) && speech == []
      ensures JoinedText(lastTextData) != "" ==>
        (lastText, stableTextCount) == NextStable(old(lastText), old(stableTextCount), JoinedText(lastTextData))
      ensures (JoinedText(lastTextData) != "" &&
        SpeakNow(audioEnabled, HighConfTexts(lastTextData, confidenceThreshold), stableTextCount, now, old(lastSpoken), cooldown)) ==>
        speech == [Join(" ", HighConfTexts(lastTextData, confidenceThreshold))] && lastSpoken == now
      ensures (JoinedText(lastTextData) != "" &&
        !SpeakNow(audioEnabled, HighConfTexts(lastTextData, confidenceThreshold), stableTextCount, now, old(lastSpoken), cooldown)) ==>
        speech == [] && lastSpoken == old(lastSpoken)
    {
      info := [];
      speech := [];
      if lastTextData != [] {
        var texts := NonEmptyTexts(lastTextData);
        var infoText := Join(" ", texts);
        if infoText != "" {
          info := info + [infoText];
          var high := HighConfTexts(lastTextData, confidenceThreshold);
          if infoText == lastText {
            stableTextCount := stableTextCount + 1;
          } else {
            stableTextCount := 0;
            lastText := infoText;
          }
          if audioEnabled && high != [] && stableTextCount >= 2 && now - lastSpoken > cooldown {
            speech := speech + [Join(" ", high)];
            lastSpoken := now;
          }
        }
      } else {
        if ocrFailed {
          info := info + ["OCR engine unavailable - check PaddleOCR install"];
        } else {
          info := info + ["No text detected - show printed text to the camera"];
        }
      }
    }

    /** The drawing loop at the start of `process_frame`: every cached box
        is drawn in order, and the first one that cannot be drawn raises.
        Nothing the model keeps changes. */
    method DrawCache() returns (crashed: bool)
      ensures crashed <==> DrawingRaises(lastTextData)
    {
      var i := 0;
      while i < |lastTextData|
        invariant 0 <= i <= |lastTextData|
        invariant forall k :: 0 <= k < i ==> Drawable(lastTextData[k].box)
      {
        if !Drawable(lastTextData[i].box) {
          return true;
        }
        i := i + 1;
      }
      return false;
    }

    /** `process_frame` at `now`: whether the engine loads on a first
        attempt and what it returns for this frame are inputs. A cached box
        that cannot be drawn raises before anything else happens; nothing
        catches it, so the call ends there (`crashed`) and changes nothing. */
    method ProcessFrame(now: real, engineLoads: bool, result: OcrResult)
      returns (info: seq<string>, speech: seq<string>, crashed: bool)
      modifies this`frameCount, this`ocrReady, this`ocrFailed, this`lastTextData
      modifies this`lastText, this`stableTextCount, this`lastSpoken
      ensures crashed <==> DrawingRaises(old(lastTextData))
      ensures crashed ==>
        && frameCount == old(frameCount) && ocrReady == old(ocrReady) && ocrFailed == old(ocrFailed)
        && lastTextData == old(lastTextData) && lastText == old(lastText)
        && stableTextCount == old(stableTextCount) && lastSpoken == old(lastSpoken)
        && info == [] && speech == []
      ensures !crashed ==> frameCount == old(frameCount) + 1
      ensures !crashed && ShouldRun(frameCount, skip) ==> lastTextData == Parse(if ocrReady then result else NoResult)
      ensures !crashed && !ShouldRun(frameCount, skip) ==>
        ocrReady == old(ocrReady) && ocrFailed == old(ocrFailed) && lastTextData == old(lastTextData)
      ensures !crashed && (old(ocrReady) || old(ocrFailed)) ==> ocrReady == old(ocrReady) && ocrFailed == old(ocrFailed)
      ensures !crashed && ShouldRun(frameCount, skip) && !old(ocrReady) && !old(ocrFailed) ==>
        ocrReady == engineLoads && ocrFailed == !engineLoads
      ensures !crashed ==>
        info ==
          (if !ShouldRun(frameCount, skip) && lastTextData == [] && ocrFailed then ["OCR engine unavailable - see logs"] else [])
          + StatusLines(lastTextData, ocrFailed)
      ensures !crashed && JoinedText(lastTextData) == "" ==>
        lastText == old(lastText) && stableTextCount == old(stableTextCount) && lastSpoken == old(lastSpoken) && speech == []
      ensures !crashed && JoinedText(lastTextData) != "" ==>
        (lastText, stableTextCount) == NextStable(old(lastText), old(stableTextCount), JoinedText(lastTextData))
      ensures !crashed && JoinedText(lastTextData) != "" &&
        SpeakNow(audioEnabled, HighConfTexts(lastTextData, confidenceThreshold), stableTextCount, now, old(lastSpoken), cooldown)
        ==> speech == [Join(" ", HighConfTexts(lastTextData, confidenceThreshold))] && lastSpoken == now
      ensures !crashed && JoinedText(lastTextData) != "" &&
        !SpeakNow(audioEnabled, HighConfTexts(lastTextData, confidenceThreshold), stableTextCount, now, old(lastSpoken), cooldown)
        ==> speech == [] && lastSpoken == old(lastSpoken)
    {
      info, speech := [], [];
      crashed := DrawCache();
      if crashed {
        return;
      }
      var first := Refresh(engineLoads, result);
      var status;
      status, speech := Report(now);
      info := first + status;
    }

    /** `on_enter`: the frame count, the remembered text and the cached parse
        start afresh; the stability count and the last speech time carry over. */
    method OnEnter()
      modifies this`frameCount, this`lastText, this`lastTextData, this`infoLines
      ensures frameCount == 0 && lastText == "" && lastTextData == [] && infoLines == []
    {
      frameCount := 0;
      lastText := "";
      lastTextData := [];
      infoLines := [];
    }
  }
}

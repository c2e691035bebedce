/**
 * The single-mode OCR service of blindaid/modes/ocr/reader.py: OCR on every
 * `frame_skip + 1`-th frame, the extraction of texts, high-confidence texts
 * and boxes from the PaddleOCR result, the caches refreshed only when some
 * box was found, the automatic reading of new high-confidence text behind a
 * cooldown, and the "s" key that reads the cached text again.
 *
 * The module imports a speech player class that blindaid/core/audio.py does
 * not define, so as written it cannot even be imported; the model gives it
 * the speech queue of blindaid/core/audio.py. The OCR engine is foreign code:
 * its result is an input. The camera, the window and the drawing are left
 * out; `now` is the clock.
 */
module Reader {
  import opened Common
  import opened OcrData
  import Config
  import Cooldown
  import Audio

  /** One entry of `current_text_data`: the text, its score and its corner
      points. */
  datatype TextBox = TextBox(text: string, score: real, coords: Points)

  /** What one entry of the result contributes: its text and score, and its
      corner points when it has a box of at least four of them. */
  datatype Extracted = Extracted(text: string, score: real, box: Option<Points>)

  /** The three lists `_extract_text_from_result` returns. */
  datatype Extraction = Extraction(texts: seq<string>, high: seq<string>, data: seq<TextBox>)

  const NoText: Extraction := Extraction([], [], [])

  // ---------------------------------------------------------------------------
  // From extracted entries to the three lists
  // ---------------------------------------------------------------------------

  function TextsOf(es: seq<Extracted>): (r: seq<string>)
    ensures |r| == |es|
    ensures forall i :: 0 <= i < |es| ==> r[i] == es[i].text
  {
    seq(|es|, i requires 0 <= i < |es| => es[i].text)
  }

  /** The texts scoring strictly above the threshold, in order. */
  function HighOf(es: seq<Extracted>, threshold: real): seq<string>
    decreases |es|
  {
    if es == [] then []
    else
      var e := es[|es| - 1];
      HighOf(es[..|es| - 1], threshold) + (if e.score > threshold then [e.text] else [])
  }

  /** The entries with a box, in order. */
  function DataOf(es: seq<Extracted>): seq<TextBox>
    decreases |es|
  {
    if es == [] then []
    else
      var e := es[|es| - 1];
      DataOf(es[..|es| - 1]) + (if e.box.Some? then [TextBox(e.text, e.score, e.box.value)] else [])
  }

  function ExtractionOf(es: seq<Extracted>, threshold: real): Extraction
  {
    Extraction(TextsOf(es), HighOf(es, threshold), DataOf(es))
  }

  /** The high-confidence list is the texts scoring above the threshold and
      the data list the entries with a box of at least four points, both in
      order; neither is longer than the text list. */
  lemma ExtractionOfShape(es: seq<Extracted>, threshold: real)
    requires forall i :: 0 <= i < |es| && es[i].box.Some? ==> |es[i].box.value| >= 4
    ensures |HighOf(es, threshold)| <= |es| && |DataOf(es)| <= |es|
    ensures forall t :: t in HighOf(es, threshold) <==> exists i :: 0 <= i < |es| && es[i].text == t && es[i].score > threshold
    ensures forall d :: d in DataOf(es) ==> |d.coords| >= 4 && d.text in TextsOf(es)
  {
    HighOfExact(es, threshold);
    DataOfBoxes(es);
  }

  /** The high-confidence texts are exactly those scoring above the threshold. */
  lemma {:induction false} HighOfExact(es: seq<Extracted>, threshold: real)
    ensures |HighOf(es, threshold)| <= |es|
    ensures forall t :: t in HighOf(es, threshold) <==> exists i :: 0 <= i < |es| && es[i].text == t && es[i].score > threshold
    decreases |es|
  {
    if es != [] {
      var init := es[..|es| - 1];
      HighOfExact(init, threshold);
      assert forall i :: 0 <= i < |init| ==> init[i] == es[i];
      forall t | t in HighOf(es, threshold)
        ensures exists i :: 0 <= i < |es| && es[i].text == t && es[i].score > threshold
      {
        if t !in HighOf(init, threshold) {
          assert es[|es| - 1].text == t;
        }
      }
    }
  }

  /** Every data entry has a box of at least four points and one of the texts. */
  lemma {:induction false} DataOfBoxes(es: seq<Extracted>)
    requires forall i :: 0 <= i < |es| && es[i].box.Some? ==> |es[i].box.value| >= 4
    ensures |DataOf(es)| <= |es|
    ensures forall d :: d in DataOf(es) ==> |d.coords| >= 4 && d.text in TextsOf(es)
    decreases |es|
  {
    if es != [] {
      var init := es[..|es| - 1];
      DataOfBoxes(init);
      assert forall i :: 0 <= i < |init| ==> init[i] == es[i];
      assert TextsOf(es) == TextsOf(init) + [es[|es| - 1].text];
    }
  }

  /** One more entry extends each list by what it contributes. */
  lemma ExtractionSnoc(es: seq<Extracted>, e: Extracted, threshold: real)
    ensures TextsOf(es + [e]) == TextsOf(es) + [e.text]
    ensures HighOf(es + [e], threshold) == HighOf(es, threshold) + (if e.score > threshold then [e.text] else [])
    ensures DataOf(es + [e]) == DataOf(es) + (if e.box.Some? then [TextBox(e.text, e.score, e.box.value)] else [])
  {
    assert (es + [e])[..|es|] == es;
  }

  // ---------------------------------------------------------------------------
  // The dictionary branch
  // ---------------------------------------------------------------------------

  /** The box of entry `i` of a dictionary page, when it has one of at least
      four points. A missing or `None` polygon gives none. */
  function DictBox(p: Page, i: int): (b: Option<Points>)
    requires p.DictPage?
    ensures b.Some? ==> |b.value| >= 4
  {
    var polys := Polys(p);
    if 0 <= i < |polys| && polys[i].Some? && |polys[i].value| >= 4 then Some(polys[i].value) else None
  }

  /** Entry `i` of a dictionary page: skipped when its text is empty or only
      white space; otherwise the stripped text, the score (1.0 when there is
      none) and the box. */
  function DictEntry(p: Page, i: int): Option<Extracted>
    requires p.DictPage? && 0 <= i < |p.texts|
  {
    if p.texts[i] != "" && Strip(p.texts[i]) != "" then Some(Extracted(Strip(p.texts[i]), ScoreAt(p.scores, i), DictBox(p, i)))
    else None
  }

  function DictEntries(p: Page): seq<Option<Extracted>>
    requires p.DictPage?
  {
    seq(|p.texts|, i requires 0 <= i < |p.texts| => DictEntry(p, i))
  }

  // ---------------------------------------------------------------------------
  // The legacy list branch
  // ---------------------------------------------------------------------------

  /** A flat list of numbers read as consecutive (x, y) pairs. */
  function Pairs(nums: seq<int>): (r: Points)
    requires |nums| % 2 == 0
    ensures |r| == |nums| / 2
  {
    seq(|nums| / 2, k requires 0 <= k < |nums| / 2 => (nums[2 * k], nums[2 * k + 1]))
  }

  /** The box of a legacy line after `reshape(-1, 2)`: `None` when the line
      is skipped. A box needs at least four elements; a flat list needs an
      even count to reshape. */
  function LineCoords(box: LineBox): Option<Points>
  {
    match box
    case PointList(pts) => if |pts| >= 4 then Some(pts) else None
    case FlatList(nums) => if |nums| >= 4 && |nums| % 2 == 0 then Some(Pairs(nums)) else None
    case Unconvertible => None
  }

  /** The text and score of a legacy line: a tuple of two or more gives its
      first two elements, a one-element tuple and a bare string score 1.0, and
      anything else, a list included, is read as its `str()` with score 1.0. */
  function InfoTextScore(info: TextInfo): (string, real)
  {
    match info
    case InfoTuple(text, score) => (text, if score.Some? then score.value else 1.0)
    case InfoText(s) => (s, 1.0)
    case InfoList(_, _, repr) => (repr, 1.0)
    case InfoOther(repr) => (repr, 1.0)
  }

  /** A legacy line: skipped unless it is a pair with a usable box; its text
      is kept even when empty, and its box enters the data only with at
      least four points. */
  function LineEntry(line: Line): Option<Extracted>
  {
    if line.NotAPair? then None
    else
      var coords := LineCoords(line.box);
      if coords.None? then None
      else
        var (text, score) := InfoTextScore(line.info);
        Some(Extracted(text, score, if |coords.value| >= 4 then coords else None))
  }

  function LineEntries(lines: seq<Line>): seq<Option<Extracted>>
  {
    seq(|lines|, k requires 0 <= k < |lines| => LineEntry(lines[k]))
  }

  // ---------------------------------------------------------------------------
  // _extract_text_from_result
  // ---------------------------------------------------------------------------

  /** `_extract_text_from_result` as written. A legacy list page passes the
      `hasattr(ocr_result, '__getitem__')` test meant for the dictionary
      result, its `ocr_result['rec_texts']` raises `TypeError`, the bare
      `except` swallows it, and the three lists come back empty. */
  function ExtractAsWritten(result: OcrResult, threshold: real): Extraction
  {
    match result
    case NoResult => NoText
    case Result(p) =>
      match p
      case FalsyPage => NoText
      case DictPage(_, _, _, _) => ExtractionOf(Somes(DictEntries(p)), threshold)
      case ListPage(_) => NoText
  }

  /** `_extract_text_from_result` with the legacy list page sent to the list
      branch written for it. */
  function Extract(result: OcrResult, threshold: real): Extraction
  {
    match result
    case NoResult => NoText
    case Result(p) =>
      match p
      case FalsyPage => NoText
      case DictPage(_, _, _, _) => ExtractionOf(Somes(DictEntries(p)), threshold)
      case ListPage(lines) => ExtractionOf(Somes(LineEntries(lines)), threshold)
  }

  /** Line `k` of a legacy page is a pair with a usable box. */
  predicate Readable(lines: seq<Line>, k: int)
  {
    0 <= k < |lines| && LineEntry(lines[k]).Some?
  }

  /** The list branch of the code as written is dead: every legacy page
      yields three empty lists. */
  lemma ListBranchIsUnreachable(lines: seq<Line>, threshold: real)
    ensures ExtractAsWritten(Result(ListPage(lines)), threshold) == NoText
  {
  }

  /** With the legacy page sent to its own branch, every readable line gives
      its text, and nothing else is read. */
  lemma ListLinesAreRead(lines: seq<Line>, threshold: real)
    ensures |Extract(Result(ListPage(lines)), threshold).texts| <= |lines|
    ensures forall k :: Readable(lines, k) ==>
      InfoTextScore(lines[k].info).0 in Extract(Result(ListPage(lines)), threshold).texts
  {
    var es := LineEntries(lines);
    SomesExact(es);
    forall k | Readable(lines, k)
      ensures InfoTextScore(lines[k].info).0 in Extract(Result(ListPage(lines)), threshold).texts
    {
      assert es[k] == LineEntry(lines[k]);
      var e := es[k].value;
      assert e in Somes(es);
      var i :| 0 <= i < |Somes(es)| && Somes(es)[i] == e;
      assert TextsOf(Somes(es))[i] == e.text;
    }
  }

  /** A concrete legacy page on which the two differ: one line with a
      four-point box and a confident text. */
  lemma ListBranchCounterexample()
    ensures var lines := [Pair(PointList([(0, 0), (10, 0), (10, 5), (0, 5)]), InfoTuple("EXIT", Some(0.99)))];
      && ExtractAsWritten(Result(ListPage(lines)), 0.9) == NoText
      && Extract(Result(ListPage(lines)), 0.9) ==
         Extraction(["EXIT"], ["EXIT"], [TextBox("EXIT", 0.99, [(0, 0), (10, 0), (10, 5), (0, 5)])])
  {
    var box := [(0, 0), (10, 0), (10, 5), (0, 5)];
    var lines := [Pair(PointList(box), InfoTuple("EXIT", Some(0.99)))];
    var e := Extracted("EXIT", 0.99, Some(box));
    assert LineEntry(lines[0]) == Some(e);
    assert LineEntries(lines) == [Some(e)];
    assert Somes([Some(e)]) == [e] by {
      assert [Some(e)][..0] == [];
    }
    ExtractionSnoc([], e, 0.9);
    assert [] + [e] == [e];
  }

  /** The entries of a page, of either kind. */
  function PageEntries(p: Page): seq<Option<Extracted>>
    requires !p.FalsyPage?
  {
    if p.DictPage? then DictEntries(p) else LineEntries(p.lines)
  }

  /** An entry keeps a box only if it has at least four points. */
  predicate BoxOk(e: Extracted)
  {
    e.box.Some? ==> |e.box.value| >= 4
  }

  /** Every box an entry keeps has at least four points. */
  lemma KeptBoxesAreQuadrilateralsOrMore(p: Page)
    requires !p.FalsyPage?
    ensures forall i :: 0 <= i < |Somes(PageEntries(p))| ==> BoxOk(Somes(PageEntries(p))[i])
  {
    var es := PageEntries(p);
    forall k | 0 <= k < |es| && es[k].Some?
      ensures BoxOk(es[k].value)
    {
      if p.DictPage? {
        assert es[k] == DictEntry(p, k);
      } else {
        assert es[k] == LineEntry(p.lines[k]);
      }
    }
    SomesAll(es, BoxOk);
  }

  /** A text that is not empty and has no white space at either end. */
  predicate Clean(t: string)
  {
    t != "" && Strip(t) == t
  }

  /** An entry of a dictionary page that is kept has a clean text. */
  lemma DictEntryStripped(p: Page, i: int)
    requires p.DictPage? && 0 <= i < |p.texts|
    ensures DictEntry(p, i).Some? ==> Clean(DictEntry(p, i).value.text)
  {
    StripIdempotent(p.texts[i]);
  }

  /** Every text a dictionary page yields is clean. */
  lemma DictTextsAreStripped(p: Page)
    requires p.DictPage?
    ensures forall i :: 0 <= i < |Somes(DictEntries(p))| ==> Clean(Somes(DictEntries(p))[i].text)
  {
    var es := DictEntries(p);
    forall k | 0 <= k < |es| && es[k].Some?
      ensures CleanEntry(es[k].value)
    {
      DictEntryStripped(p, k);
    }
    SomesAll(es, CleanEntry);
  }

  predicate CleanEntry(e: Extracted)
  {
    Clean(e.text)
  }

  /** The shape every extraction has: no more high-confidence texts or
      data entries than texts, and every data entry a box of at least four
      points carrying one of the texts. */
  predicate Shaped(x: Extraction)
  {
    && |x.high| <= |x.texts| && |x.data| <= |x.texts|
    && forall d :: d in x.data ==> |d.coords| >= 4 && d.text in x.texts
  }

  /** What `_extract_text_from_result` promises, as written and with the
      list branch reached. An empty result gives three empty lists. Both
      agree on every result but a legacy list page, which as written gives
      three empty lists too. A dictionary page gives its non-blank texts,
      stripped. Every extraction has the shape above. */
  lemma ExtractShape(result: OcrResult, threshold: real)
    ensures result.NoResult? || result.first.FalsyPage? ==> ExtractAsWritten(result, threshold) == Extract(result, threshold) == NoText
    ensures result.Result? && result.first.ListPage? ==> ExtractAsWritten(result, threshold) == NoText
    ensures !(result.Result? && result.first.ListPage?) ==> ExtractAsWritten(result, threshold) == Extract(result, threshold)
    ensures Shaped(ExtractAsWritten(result, threshold)) && Shaped(Extract(result, threshold))
    ensures result.Result? && result.first.DictPage? ==>
      forall i :: 0 <= i < |ExtractAsWritten(result, threshold).texts| ==> Clean(ExtractAsWritten(result, threshold).texts[i])
  {
    if result.Result? && !result.first.FalsyPage? {
      var p := result.first;
      KeptBoxesAreQuadrilateralsOrMore(p);
      ExtractionOfShape(Somes(PageEntries(p)), threshold);
      assert Extract(result, threshold) == ExtractionOf(Somes(PageEntries(p)), threshold);
      if p.DictPage? {
        DictTextsAreStripped(p);
      }
    }
  }

  /** The loop of the dictionary branch, or of the list branch, over the
      entries of a page. */
  method ExtractEntries(entries: seq<Option<Extracted>>, threshold: real)
    returns (texts: seq<string>, high: seq<string>, data: seq<TextBox>)
    ensures Extraction(texts, high, data) == ExtractionOf(Somes(entries), threshold)
  {
    texts, high, data := [], [], [];
    var i := 0;
    while i < |entries|
      invariant 0 <= i <= |entries|
      invariant Extraction(texts, high, data) == ExtractionOf(Somes(entries[..i]), threshold)
    {
      assert entries[..i + 1][..i] == entries[..i];
      if entries[i].Some? {
        var e := entries[i].value;
        ExtractionSnoc(Somes(entries[..i]), e, threshold);
        texts := texts + [e.text];
        if e.score > threshold {
          high := high + [e.text];
        }
        if e.box.Some? {
          data := data + [TextBox(e.text, e.score, e.box.value)];
        }
      }
      i := i + 1;
    }
    assert entries[..i] == entries;
  }

  /** A key read from the window. */
  datatype ReaderKey = QuitKey | SpeakKey | OtherKey

  /** The status line: how many lines were read, or none. */
  datatype Status = TextDetected(lines: nat) | NoTextDetected

  /** Whether the frame numbered `count` (counting from 0) runs OCR: every
      `frame_skip + 1`-th frame does, the first one included. */
  predicate RunsOcr(count: int, frameSkip: int)
    requires frameSkip + 1 != 0
  {
    count % (frameSkip + 1) == 0
  }

  /** The automatic reading of the high-confidence texts `high` at `now`:
      their joined and stripped text, with audio on, when it is non-empty,
      differs from the last text read and the cooldown has passed since the
      last reading. What is read is never the last text again. */
  function AutoReading(audioEnabled: bool, high: seq<string>, lastText: string, lastSpoken: real, cooldown: real, now: real): (r: Option<string>)
    ensures r.Some? ==> audioEnabled && r.value != "" && r.value != lastText
    ensures r.Some? ==> Cooldown.Due(lastSpoken, now, cooldown)
  {
    var t := Strip(Join(" ", high));
    if audioEnabled && t != "" && t != lastText && Cooldown.Due(lastSpoken, now, cooldown) then Some(t) else None
  }

  /** What is read aloud has no white space at either end. */
  lemma AutoReadingIsStripped(audioEnabled: bool, high: seq<string>, lastText: string, lastSpoken: real, cooldown: real, now: real)
    ensures var r := AutoReading(audioEnabled, high, lastText, lastSpoken, cooldown, now);
      r.Some? ==> Strip(r.value) == r.value
  {
    StripIdempotent(Join(" ", high));
  }

  /** The fields of the service that change from frame to frame. */
  datatype ReaderState = ReaderState(
    lastText: string, lastSpoken: real, frameCount: int,
    data: seq<TextBox>, texts: seq<string>, high: seq<string>)

  /** The settings of the service, fixed when it is built. */
  datatype ReaderSettings = ReaderSettings(audioEnabled: bool, threshold: real, cooldown: real, frameSkip: int)

  /** What the OCR part of a frame does: the extraction, the automatic
      reading and the state after them. */
  datatype ReadOutcome = ReadOutcome(next: ReaderState, read: Extraction, aloud: Option<string>)

  /** What OCR yields on the frame counted `st.frameCount`: OCR runs on
      every `frame_skip + 1`-th frame, and only a non-empty result is
      extracted, by the code as written. */
  function FrameRead(st: ReaderState, cfg: ReaderSettings, ocrResult: OcrResult): Extraction
    requires cfg.frameSkip + 1 != 0
  {
    if RunsOcr(st.frameCount, cfg.frameSkip) && ocrResult.Result? then ExtractAsWritten(ocrResult, cfg.threshold) else NoText
  }

  /** The frame is counted, and the cached lists are replaced by an
      extraction that found some box. */
  function Cached(st: ReaderState, read: Extraction): ReaderState
  {
    var counted := st.(frameCount := st.frameCount + 1);
    if read.data != [] then counted.(data := read.data, texts := read.texts, high := read.high) else counted
  }

  /** A reading is remembered with its time. */
  function Remembered(st: ReaderState, aloud: Option<string>, now: real): ReaderState
  {
    if aloud.Some? then st.(lastText := aloud.value, lastSpoken := now) else st
  }

  /** The OCR part of one pass of `run`, given what the engine returns on
      this frame: the extraction, the cache update, then the automatic
      reading of this frame's high-confidence texts. */
  function ReadStep(st: ReaderState, cfg: ReaderSettings, ocrResult: OcrResult, now: real): ReadOutcome
    requires cfg.frameSkip + 1 != 0
  {
    var read := FrameRead(st, cfg, ocrResult);
    var aloud := AutoReading(cfg.audioEnabled, read.high, st.lastText, st.lastSpoken, cfg.cooldown, now);
    ReadOutcome(Remembered(Cached(st, read), aloud, now), read, aloud)
  }

  /** What the OCR part of a frame promises: every frame is counted; a
      legacy list page reads nothing and changes nothing else; a
      frame that does not run OCR, or gets an empty result, reads nothing;
      the cached lists change only to those of an extraction that found some
      box; something is read aloud only on a frame that ran OCR and found
      high-confidence text, never the text read last, and it becomes the
      last text with the current time; otherwise the last reading stays. */
  lemma ReadStepPromises(st: ReaderState, cfg: ReaderSettings, ocrResult: OcrResult, now: real)
    requires cfg.frameSkip + 1 != 0
    ensures var r := ReadStep(st, cfg, ocrResult, now);
      && r.next.frameCount == st.frameCount + 1
      && (r.read != NoText ==> RunsOcr(st.frameCount, cfg.frameSkip) && ocrResult.Result?)
      && (r.next.data, r.next.texts, r.next.high) ==
         (if r.read.data != [] then (r.read.data, r.read.texts, r.read.high) else (st.data, st.texts, st.high))
      && (r.aloud.Some? ==>
           && RunsOcr(st.frameCount, cfg.frameSkip) && r.read.high != []
           && r.aloud.value != st.lastText && r.aloud.value == Strip(Join(" ", r.read.high))
           && (r.next.lastText, r.next.lastSpoken) == (r.aloud.value, now))
      && (r.aloud.None? ==> (r.next.lastText, r.next.lastSpoken) == (st.lastText, st.lastSpoken))
      && Shaped(r.read)
      && (ocrResult.Result? && ocrResult.first.ListPage? ==>
           r.read == NoText && r.aloud.None? && r.next == st.(frameCount := st.frameCount + 1))
  {
    var r := ReadStep(st, cfg, ocrResult, now);
    ExtractShape(ocrResult, cfg.threshold);
    if r.read.high == [] {
      assert Join(" ", r.read.high) == "";
    }
  }

  /** What "s" reads again: the cached high-confidence texts joined, when
      there are any and there is a player. */
  function Again(st: ReaderState, hasPlayer: bool): seq<string>
  {
    if st.high != [] && hasPlayer then [Join(" ", st.high)] else []
  }

  /** "s" with cached high-confidence text and no player raises. */
  predicate Crashes(st: ReaderState, hasPlayer: bool)
  {
    st.high != [] && !hasPlayer
  }

  class OcrReader {
    const audioEnabled: bool
    const confidenceThreshold: real
    const cooldown: real
    const frameSkip: int
    /** The speech player; with audio off there is none, and `hasPlayer` is false. */
    const hasPlayer: bool
    const player: Audio.AudioPlayer
    var lastText: string
    var lastSpoken: real
    var frameCount: int
    var lastTextData: seq<TextBox>
    var lastTextList: seq<string>
    var lastHighList: seq<string>

    ghost predicate Valid()
      reads this, player
    {
      player.Valid() && frameSkip + 1 != 0 && hasPlayer == audioEnabled
    }

    function State(): ReaderState
      reads this
    {
      ReaderState(lastText, lastSpoken, frameCount, lastTextData, lastTextList, lastHighList)
    }

    function Settings(): ReaderSettings
    {
      ReaderSettings(audioEnabled, confidenceThreshold, cooldown, frameSkip)
    }

    /** `OCRService(...)`: nothing read, nothing spoken (`last_spoken = 0`),
        the cooldown and frame skip from the configuration. */
    constructor(audioEnabled: bool, confidence: real, engineAvailable: bool)
      ensures Valid() && fresh(player)
      ensures Settings() == ReaderSettings(audioEnabled, confidence, Config.OcrCooldownSeconds, Config.OcrFrameSkip)
      ensures player.queue == [] && player.workerAlive == engineAvailable
      ensures State() == ReaderState("", 0.0, 0, [], [], [])
    {
      this.audioEnabled := audioEnabled;
      confidenceThreshold := confidence;
      cooldown := Config.OcrCooldownSeconds;
      frameSkip := Config.OcrFrameSkip;
      hasPlayer := audioEnabled;
      player := new Audio.AudioPlayer(engineAvailable);
      lastText := "";
      lastSpoken := 0.0;
      frameCount := 0;
      lastTextData := [];
      lastTextList := [];
      lastHighList := [];
    }

    /** `_extract_text_from_result` as written: a legacy list page enters
        the dictionary branch, fails there, and gives three empty lists. */
    method ExtractTextFromResult(result: OcrResult) returns (x: Extraction)
      ensures x == ExtractAsWritten(result, confidenceThreshold)
    {
      if result.NoResult? || result.first.FalsyPage? {
        return NoText;
      }
      var p := result.first;
      if p.ListPage? {
        return NoText;
      }
      var texts, high, data := ExtractEntries(DictEntries(p), confidenceThreshold);
      x := Extraction(texts, high, data);
    }

    /** The list branch of `_extract_text_from_result`, which the code as
        written never reaches, run on a legacy page: it reads the page as
        the corrected extraction does. */
    method ExtractListPage(lines: seq<Line>) returns (x: Extraction)
      ensures x == Extract(Result(ListPage(lines)), confidenceThreshold)
    {
      var texts, high, data := ExtractEntries(LineEntries(lines), confidenceThreshold);
      x := Extraction(texts, high, data);
    }

    /** OCR on this frame: the frame is counted, OCR runs on every
        `frame_skip + 1`-th frame, and an extraction that found some box
        replaces the cached lists. */
    method RunOcr(ocrResult: OcrResult) returns (x: Extraction)
      requires Valid()
      modifies this`frameCount, this`lastTextData, this`lastTextList, this`lastHighList
      ensures Valid()
      ensures x == FrameRead(old(State()), Settings(), ocrResult)
      ensures State() == Cached(old(State()), x)
    {
      var ran := RunsOcr(frameCount, frameSkip) && ocrResult.Result?;
      frameCount := frameCount + 1;
      x := NoText;
      if ran {
        x := ExtractTextFromResult(ocrResult);
        if |x.data| > 0 {
          lastTextData := x.data;
          lastTextList := x.texts;
          lastHighList := x.high;
        }
      }
    }

    /** The automatic reading of `high` at `now`, queued on the player and
        remembered with its time. */
    method ReadAloud(high: seq<string>, now: real) returns (spoken: seq<string>)
      requires Valid()
      modifies this`lastText, this`lastSpoken, player
      ensures Valid()
      ensures spoken == Said(AutoReading(audioEnabled, high, old(lastText), old(lastSpoken), cooldown, now))
      ensures lastText == if spoken != [] then spoken[0] else old(lastText)
      ensures lastSpoken == if spoken != [] then now else old(lastSpoken)
      ensures player.queue == Audio.OfferAll(old(player.queue), spoken)
      ensures player.played == old(player.played) && player.workerAlive == old(player.workerAlive)
    {
      spoken := [];
      var aloud := AutoReading(audioEnabled, high, lastText, lastSpoken, cooldown, now);
      if aloud.Some? {
        var accepted := player.Speak(aloud.value);
        spoken := [aloud.value];
        assert spoken[..0] == [];
        lastText := aloud.value;
        lastSpoken := now;
      }
    }

    /** The OCR part of a pass of the `run` loop at `now`, as `ReadStep`
        says; what is read aloud is queued on the player. */
    method ReadFrame(ocrResult: OcrResult, now: real) returns (x: Extraction, spoken: seq<string>)
      requires Valid()
      modifies this`lastText, this`lastSpoken, this`frameCount, this`lastTextData, this`lastTextList, this`lastHighList, player
      ensures Valid()
      ensures State() == ReadStep(old(State()), Settings(), ocrResult, now).next
      ensures x == ReadStep(old(State()), Settings(), ocrResult, now).read
      ensures spoken == Said(ReadStep(old(State()), Settings(), ocrResult, now).aloud)
      ensures !hasPlayer ==> spoken == []
      ensures player.queue == Audio.OfferAll(old(player.queue), spoken)
      ensures player.played == old(player.played) && player.workerAlive == old(player.workerAlive)
    {
      x := RunOcr(ocrResult);
      ghost var counted := State();
      spoken := ReadAloud(x.high, now);
      assert State() == Remembered(counted, AutoReading(audioEnabled, x.high, counted.lastText, counted.lastSpoken, cooldown, now), now);
    }

    /** One pass of the `run` loop at `now`: the OCR part (`read`, and the
        automatic reading), the status line, then the key. "s" reads the
        cached high-confidence text again; with audio off there is no player
        and that `speak` raises, which ends `run` (`crashed`). */
    method Frame(ocrResult: OcrResult, now: real, key: ReaderKey)
      returns (read: Extraction, status: Status, spoken: seq<string>, quit: bool, crashed: bool)
      requires Valid()
      modifies this`lastText, this`lastSpoken, this`frameCount, this`lastTextData, this`lastTextList, this`lastHighList, player
      ensures Valid()
      ensures State() == ReadStep(old(State()), Settings(), ocrResult, now).next
      ensures read == ReadStep(old(State()), Settings(), ocrResult, now).read
      ensures status == if read.texts != [] then TextDetected(|read.texts|) else NoTextDetected
      ensures quit <==> key == QuitKey
      ensures crashed <==> key == SpeakKey && Crashes(State(), hasPlayer)
      ensures spoken == Said(ReadStep(old(State()), Settings(), ocrResult, now).aloud)
        + (if key == SpeakKey then Again(State(), hasPlayer) else [])
      ensures player.queue == Audio.OfferAll(old(player.queue), spoken)
      ensures player.played == old(player.played) && player.workerAlive == old(player.workerAlive)
    {
      var aloud;
      read, aloud := ReadFrame(ocrResult, now);
      status := if |read.texts| > 0 then TextDetected(|read.texts|) else NoTextDetected;
      quit := key == QuitKey;
      crashed := false;
      var again := [];
      if key == SpeakKey {
        again, crashed := SpeakAgain();
      }
      spoken := aloud + again;
      Audio.OfferAllAppend(old(player.queue), aloud, again);
    }

    /** "s": the cached high-confidence text is read again, if there is
        any. With audio off there is no player and that `speak` raises
        (`crashed`). */
    method SpeakAgain() returns (said: seq<string>, crashed: bool)
      requires Valid()
      modifies player
      ensures Valid()
      ensures crashed <==> Crashes(State(), hasPlayer)
      ensures said == Again(State(), hasPlayer)
      ensures player.queue == Audio.OfferAll(old(player.queue), said)
      ensures player.played == old(player.played) && player.workerAlive == old(player.workerAlive)
    {
      said := [];
      crashed := false;
      if |lastHighList| > 0 {
        if hasPlayer {
          var accepted := player.Speak(Join(" ", lastHighList));
          said := [Join(" ", lastHighList)];
          assert said[..0] == [];
        } else {
          crashed := true;
        }
      }
    }
  }
}

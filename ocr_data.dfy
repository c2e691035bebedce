/**
 * The shape of a PaddleOCR result, as the two OCR front ends of BlindAid
 * (blindaid/modes/ocr/reading_mode.py and blindaid/modes/ocr/reader.py)
 * look at it. The OCR engine itself is foreign code: a result is an input.
 */
module OcrData {
  import opened Common

  /** A polygon as its corner points, after conversion to an integer array. */
  type Points = seq<(int, int)>

  /** The box of a legacy list line, before `np.array` sees it: a list of
      points, a flat list of numbers, or something `np.array` cannot convert. */
  datatype LineBox = PointList(pts: Points) | FlatList(nums: seq<int>) | Unconvertible

  /** The text part of a legacy list line. `InfoTuple` is a tuple of the text
      and an optional score (a one-element tuple has none). `InfoList` is the
      same in a list, with `repr` its Python `str()`. `InfoText` is a bare
      string. `InfoOther` is anything else, known by its `str()`. */
  datatype TextInfo =
    | InfoTuple(text: string, score: Option<real>)
    | InfoList(text: string, score: Option<real>, repr: string)
    | InfoText(s: string)
    | InfoOther(repr: string)

  /** One line of a legacy list result: `NotAPair` is a line that is not a
      list or tuple, or has fewer than two elements. */
  datatype Line = NotAPair | Pair(box: LineBox, info: TextInfo)

  /** `result[0]`. `FalsyPage` is an empty or false first entry.
      `DictPage` is the dictionary-like `OCRResult` of current PaddleOCR,
      given by its `rec_texts`, its `rec_scores` (a missing key is an empty
      list) and its `rec_polys` and `dt_polys` (a `None` entry is a `None`
      polygon). `ListPage` is the legacy list of lines. */
  datatype Page =
    | FalsyPage
    | DictPage(texts: seq<string>, scores: seq<real>, recPolys: Option<seq<Option<Points>>>, dtPolys: seq<Option<Points>>)
    | ListPage(lines: seq<Line>)

  /** What `engine.ocr(frame)` returns: `NoResult` is `None` or an empty list. */
  datatype OcrResult = NoResult | Result(first: Page)

  /** `first.get("rec_polys", first.get("dt_polys", []))`. */
  function Polys(p: Page): seq<Option<Points>>
    requires p.DictPage?
  {
    match p.recPolys
    case Some(polys) => polys
    case None => p.dtPolys
  }

  /** The score of entry `i` of a dictionary page: `scores[i]` when there is
      one, 1.0 otherwise. */
  function ScoreAt(scores: seq<real>, i: int): real
  {
    if 0 <= i < |scores| then scores[i] else 1.0
  }
}

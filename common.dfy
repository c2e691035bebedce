/**
 * Shared value-level helpers of the BlindAid model: an Option type, Python's
 * `str.join`, `str.strip` and `str.lower` on strings, Python's ordering of
 * strings together with `sorted(set)`, the left/middle/right thirds rule used by
 * every detector, box clamping and `int()` truncation of a real.
 */
module Common {

  datatype Option<T> = None | Some(value: T)

  /** An optional message as the list of what is said: one message or none. */
  function Said(m: Option<string>): seq<string>
  {
    if m.Some? then [m.value] else []
  }

  function Max(a: int, b: int): int { if a >= b then a else b }
  function Min(a: int, b: int): int { if a <= b then a else b }
  function MaxReal(a: real, b: real): real { if a >= b then a else b }

  /** Python's `sep.join(parts)`. */
  function Join(sep: string, parts: seq<string>): string
  {
    if |parts| == 0 then ""
    else if |parts| == 1 then parts[0]
    else parts[0] + sep + Join(sep, parts[1..])
  }

  /** The present values of `s`, in order: a loop that appends what each entry yields. */
  function Somes<T>(s: seq<Option<T>>): seq<T>
    decreases |s|
  {
    if s == [] then []
    else
      var before := Somes(s[..|s| - 1]);
      match s[|s| - 1]
      case None => before
      case Some(x) => before + [x]
  }

  /** `Somes` keeps exactly the present values and drops nothing else. */
  lemma {:induction false} SomesExact<T>(s: seq<Option<T>>)
    ensures |Somes(s)| <= |s|
    ensures forall x :: x in Somes(s) <==> Some(x) in s
    ensures (forall i :: 0 <= i < |s| ==> s[i].Some?) ==> |Somes(s)| == |s|
    decreases |s|
  {
    if s != [] {
      var init := s[..|s| - 1];
      SomesExact(init);
      assert s == init + [s[|s| - 1]];
      if forall i :: 0 <= i < |s| ==> s[i].Some? {
        assert forall i :: 0 <= i < |init| ==> init[i] == s[i];
      }
    }
  }

  /** A property of every present value holds of every value `Somes` keeps. */
  lemma {:induction false} SomesAll<T>(s: seq<Option<T>>, P: T -> bool)
    requires forall k :: 0 <= k < |s| && s[k].Some? ==> P(s[k].value)
    ensures forall i :: 0 <= i < |Somes(s)| ==> P(Somes(s)[i])
    decreases |s|
  {
    if s != [] {
      var init := s[..|s| - 1];
      assert forall k :: 0 <= k < |init| ==> init[k] == s[k];
      SomesAll(init, P);
    }
  }

  // ---------------------------------------------------------------------------
  // str.strip and str.lower
  // ---------------------------------------------------------------------------

  /** The characters Python's `str.strip()` removes (those for which `str.isspace()` holds). */
  predicate IsSpace(c: char)
  {
    var n := c as int;
    (9 <= n <= 13) || (28 <= n <= 32) || n == 0x85 || n == 0xA0 || n == 0x1680
    || (0x2000 <= n <= 0x200A) || n == 0x2028 || n == 0x2029 || n == 0x202F
    || n == 0x205F || n == 0x3000
  }

  function StripLeft(s: string): (r: string)
    ensures |r| <= |s| && r == s[|s| - |r|..]
    ensures r == [] || !IsSpace(r[0])
    ensures forall i :: 0 <= i < |s| - |r| ==> IsSpace(s[i])
  {
    if |s| > 0 && IsSpace(s[0]) then StripLeft(s[1..]) else s
  }

  function StripRight(s: string): (r: string)
    ensures |r| <= |s| && r == s[..|r|]
    ensures r == [] || !IsSpace(r[|r| - 1])
    ensures forall i :: |r| <= i < |s| ==> IsSpace(s[i])
  {
    if |s| > 0 && IsSpace(s[|s| - 1]) then StripRight(s[..|s| - 1]) else s
  }

  /** Python's `s.strip()`. */
  function Strip(s: string): string
  {
    StripRight(StripLeft(s))
  }

  /** `Strip(s)` is the slice of `s` that starts at offset
      `|s| - |StripLeft(s)|`. */
  lemma StripIsSlice(s: string)
    ensures var k := |s| - |StripLeft(s)|;
      k + |Strip(s)| <= |s| && Strip(s) == s[k..k + |Strip(s)|]
  {
    var l := StripLeft(s);
    var k := |s| - |l|;
    var r := StripRight(l);
    assert r == l[..|r|] && l == s[k..];
    assert l[..|r|] == s[k..k + |r|];
  }

  /** What `StripRight` cuts from a suffix `l` of `s` is white space of `s`. */
  lemma StripRightCutsOnlySpace(s: string, l: string, k: nat)
    requires k <= |s| && l == s[k..]
    ensures forall i :: k + |StripRight(l)| <= i < |s| ==> IsSpace(s[i])
  {
    var n := |StripRight(l)|;
    forall i | k + n <= i < |s|
      ensures IsSpace(s[i])
    {
      assert s[i] == l[i - k];
    }
  }

  /** `Strip` cuts only white space: everything of `s` before and after the
      slice `Strip(s)` is white space. */
  lemma StripCutsOnlySpace(s: string)
    ensures var k := |s| - |StripLeft(s)|;
      && (forall i :: 0 <= i < k ==> IsSpace(s[i]))
      && (forall i :: k + |Strip(s)| <= i < |s| ==> IsSpace(s[i]))
  {
    var l := StripLeft(s);
    StripRightCutsOnlySpace(s, l, |s| - |l|);
  }

  /** The result of `Strip` neither starts nor ends with white space. */
  lemma StripEnds(s: string)
    ensures Strip(s) == [] || (!IsSpace(Strip(s)[0]) && !IsSpace(Strip(s)[|Strip(s)| - 1]))
  {
    var l := StripLeft(s);
    var r := StripRight(l);
    if r != [] {
      assert r[0] == l[0];
    }
  }

  /** Stripping twice is stripping once. */
  lemma StripIdempotent(s: string)
    ensures Strip(Strip(s)) == Strip(s)
  {
    var r := Strip(s);
    StripEnds(s);
    assert StripLeft(r) == r;
    assert StripRight(r) == r;
  }

  function LowerChar(c: char): char
  {
    if 'A' <= c <= 'Z' then (c as int + 32) as char else c
  }

  /** `s.lower()` on the ASCII letters; every other character is kept. */
  function Lower(s: string): (r: string)
    ensures |r| == |s|
    ensures forall i :: 0 <= i < |s| ==> r[i] == LowerChar(s[i])
  {
    if s == [] then [] else [LowerChar(s[0])] + Lower(s[1..])
  }

  // ---------------------------------------------------------------------------
  // Python's ordering of str values, and sorted(set_of_str)
  // ---------------------------------------------------------------------------

  /** `a < b` on Python strings: lexicographic by code point, a proper prefix first. */
  predicate StrLess(a: string, b: string)
  {
    if |a| == 0 then |b| > 0
    else if |b| == 0 then false
    else if a[0] != b[0] then a[0] < b[0]
    else StrLess(a[1..], b[1..])
  }

  lemma {:induction false} StrLessIrreflexive(a: string)
    ensures !StrLess(a, a)
  {
    if |a| > 0 {
      StrLessIrreflexive(a[1..]);
    }
  }

  lemma {:induction false} StrLessTransitive(a: string, b: string, c: string)
    requires StrLess(a, b) && StrLess(b, c)
    ensures StrLess(a, c)
  {
    if |a| > 0 && |b| > 0 && |c| > 0 && a[0] == b[0] && b[0] == c[0] {
      StrLessTransitive(a[1..], b[1..], c[1..]);
    }
  }

  lemma {:induction false} StrLessTotal(a: string, b: string)
    requires a != b
    ensures StrLess(a, b) || StrLess(b, a)
  {
    if |a| > 0 && |b| > 0 && a[0] == b[0] {
      assert a == [a[0]] + a[1..] && b == [b[0]] + b[1..];
      StrLessTotal(a[1..], b[1..]);
    }
  }

  lemma StrLessTotalAll()
    ensures forall a: string, b: string :: a != b ==> StrLess(a, b) || StrLess(b, a)
  {
    forall a: string, b: string | a != b
      ensures StrLess(a, b) || StrLess(b, a)
    {
      StrLessTotal(a, b);
    }
  }

  predicate IsLeast(m: string, s: set<string>)
  {
    m in s && forall x :: x in s ==> !StrLess(x, m)
  }

  lemma {:induction false} LeastExists(s: set<string>)
    requires s != {}
    ensures exists m :: IsLeast(m, s)
    decreases |s|
  {
    var y :| y in s;
    if s == {y} {
      StrLessIrreflexive(y);
      assert IsLeast(y, s);
    } else {
      var rest := s - {y};
      LeastExists(rest);
      var m :| IsLeast(m, rest);
      if StrLess(y, m) {
        forall x | x in s
          ensures !StrLess(x, y)
        {
          if x == y {
            StrLessIrreflexive(y);
          } else if StrLess(x, y) {
            StrLessTransitive(x, y, m);
          }
        }
        assert IsLeast(y, s);
      } else {
        assert IsLeast(m, s);
      }
    }
  }

  /** The least string of a non-empty set (unique, because the order is total). */
  function Least(s: set<string>): (m: string)
    requires s != {}
    ensures IsLeast(m, s)
  {
    LeastExists(s);
    StrLessTotalAll();
    var m :| IsLeast(m, s);
    m
  }

  predicate StrictlySorted(r: seq<string>)
  {
    forall i, j :: 0 <= i < j < |r| ==> StrLess(r[i], r[j])
  }

  /** Python's `sorted(s)` for a set of strings: every member exactly once, in increasing order. */
  function SortedSet(s: set<string>): (r: seq<string>)
    ensures |r| == |s|
    ensures forall x :: x in r <==> x in s
    ensures StrictlySorted(r)
    decreases |s|
  {
    if s == {} then []
    else
      var m := Least(s);
      var tail := SortedSet(s - {m});
      assert forall x :: x in tail ==> StrLess(m, x) by {
        forall x | x in tail ensures StrLess(m, x) {
          StrLessTotal(m, x);
        }
      }
      [m] + tail
  }

  /** A strictly sorted list holds each of its elements exactly once. */
  lemma StrictlySortedHasNoDuplicates(r: seq<string>, i: int, j: int)
    requires StrictlySorted(r)
    requires 0 <= i < |r| && 0 <= j < |r| && i != j
    ensures r[i] != r[j]
  {
    if i < j {
      if r[i] == r[j] { StrLessIrreflexive(r[i]); }
    } else {
      if r[i] == r[j] { StrLessIrreflexive(r[j]); }
    }
  }

  // ---------------------------------------------------------------------------
  // Thirds of the frame width
  // ---------------------------------------------------------------------------

  datatype Third = LeftThird | MiddleThird | RightThird

  function ThirdRank(t: Third): nat
  {
    match t
    case LeftThird => 0
    case MiddleThird => 1
    case RightThird => 2
  }

  /** `x < w / 3` gives the left third, `x < 2 * w / 3` the middle one, anything else the right (true division). */
  function ThirdOf(x: real, width: int): Third
  {
    if x < width as real / 3.0 then LeftThird
    else if x < (2 * width) as real / 3.0 then MiddleThird
    else RightThird
  }

  /** Moving right never moves an object to a third further left. */
  lemma ThirdOfMonotonic(x: real, y: real, width: int)
    requires x <= y
    ensures ThirdRank(ThirdOf(x, width)) <= ThirdRank(ThirdOf(y, width))
  {
  }

  /** The two vocabularies for the centre third: the scene and
      object-detection modes say "center", the face-recognition services
      "middle". */
  datatype Vocabulary = ObjectWords | FaceWords

  function MiddleWord(v: Vocabulary): string
  {
    match v
    case ObjectWords => "center"
    case FaceWords => "middle"
  }

  /** The position word for `x`: which third of `width` it falls in, decided
      by `3x` against `w` and `2w`. */
  function Position(x: real, width: int, v: Vocabulary): (p: string)
    ensures p == "left" <==> 3.0 * x < width as real
    ensures p == MiddleWord(v) <==> width as real <= 3.0 * x < 2.0 * width as real
    ensures p == "right" <==> 3.0 * x >= width as real && 3.0 * x >= 2.0 * width as real
  {
    match ThirdOf(x, width)
    case LeftThird => "left"
    case MiddleThird => MiddleWord(v)
    case RightThird => "right"
  }

  // ---------------------------------------------------------------------------
  // Boxes
  // ---------------------------------------------------------------------------

  /** A pixel rectangle `(x1, y1, x2, y2)`. */
  datatype Box = Box(x1: int, y1: int, x2: int, y2: int)

  /** `x1, y1 = max(x1, 0), max(y1, 0); x2, y2 = min(x2, w - 1), min(y2, h - 1)`:
      the near corner is pulled onto the frame from above/left only, the far
      corner from below/right only, and a box already on the frame is unchanged. */
  function ClampBox(b: Box, w: int, h: int): (c: Box)
    ensures 0 <= c.x1 && 0 <= c.y1 && c.x2 <= w - 1 && c.y2 <= h - 1
    ensures c.x1 >= b.x1 && c.y1 >= b.y1 && c.x2 <= b.x2 && c.y2 <= b.y2
    ensures b.x1 >= 0 ==> c.x1 == b.x1
    ensures b.y1 >= 0 ==> c.y1 == b.y1
    ensures b.x2 <= w - 1 ==> c.x2 == b.x2
    ensures b.y2 <= h - 1 ==> c.y2 == b.y2
  {
    Box(Max(b.x1, 0), Max(b.y1, 0), Min(b.x2, w - 1), Min(b.y2, h - 1))
  }

  /** Python's `int(r)` on a float: truncation toward zero. */
  function Trunc(r: real): (i: int)
    ensures r >= 0.0 ==> i as real <= r < i as real + 1.0
    ensures r < 0.0 ==> i as real - 1.0 < r <= i as real
  {
    if r >= 0.0 then r.Floor else -((-r).Floor)
  }
}

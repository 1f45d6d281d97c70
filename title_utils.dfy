/**
  Title clean-up for search (title-utils): character classification, the
  language make-up of a title, extraction of its Chinese or English part,
  `cleanTitleForSearch` with its options, the search variants built from it,
  and the normalisation and similarity used to compare titles.

  Strings are sequences of code points, as `for ... of` sees them. Where the
  source compares `.length` (UTF-16 code units) the model uses `Utf16Len`.
 */
module TitleUtils {
  import opened Strings

  // ---------------------------------------------------------------------------
  // Characters
  // ---------------------------------------------------------------------------

  /** `char.charCodeAt(0)`: a code point above U+FFFF yields its high surrogate. */
  function CharCodeAt0(c: char): (code: int)
    ensures c as int > 0xFFFF ==> 0xD800 <= code <= 0xDBFF
    ensures c as int <= 0xFFFF ==> code == c as int
  {
    if c as int > 0xFFFF then 0xD800 + (c as int - 0x10000) / 0x400 else c as int
  }

  datatype CharType = Chinese | Japanese | Korean | English | Number | Symbol | Space

  /** getCharType, stated on code points: astral characters are always symbols. */
  function GetCharType(c: char): (t: CharType)
    ensures t == Chinese <==> 0x4E00 <= c as int <= 0x9FFF || 0x3400 <= c as int <= 0x4DBF
    ensures t == Japanese <==> 0x3040 <= c as int <= 0x30FF
    ensures t == Korean <==> 0xAC00 <= c as int <= 0xD7AF || 0x1100 <= c as int <= 0x11FF
    ensures t == English <==> 'A' <= c <= 'Z' || 'a' <= c <= 'z'
    ensures t == Number <==> '0' <= c <= '9'
    ensures t == Space <==> c == ' ' || c == '\U{3000}'
    ensures c as int > 0xFFFF ==> t == Symbol
  {
    var code := CharCodeAt0(c);
    if 0x4E00 <= code <= 0x9FFF then Chinese
    else if 0x3400 <= code <= 0x4DBF then Chinese
    else if 0x3040 <= code <= 0x309F then Japanese
    else if 0x30A0 <= code <= 0x30FF then Japanese
    else if 0xAC00 <= code <= 0xD7AF then Korean
    else if 0x1100 <= code <= 0x11FF then Korean
    else if (0x41 <= code <= 0x5A) || (0x61 <= code <= 0x7A) then English
    else if 0x30 <= code <= 0x39 then Number
    else if c == ' ' || c == '\U{3000}' then Space
    else Symbol
  }

  /** `.length`: UTF-16 code units. */
  function Utf16Len(s: string): (n: nat)
    ensures n >= |s|
  {
    if |s| == 0 then 0 else (if s[0] as int > 0xFFFF then 2 else 1) + Utf16Len(s[1..])
  }

  predicate IsAsciiDigit(c: char) {
    '0' <= c <= '9'
  }

  // ---------------------------------------------------------------------------
  // analyzeTitle
  // ---------------------------------------------------------------------------

  datatype Counts = Counts(chinese: nat, japanese: nat, korean: nat, english: nat)

  function Tally(c: Counts, t: CharType): Counts {
    match t
    case Chinese => c.(chinese := c.chinese + 1)
    case Japanese => c.(japanese := c.japanese + 1)
    case Korean => c.(korean := c.korean + 1)
    case English => c.(english := c.english + 1)
    case _ => c
  }

  /** The four counts of analyzeTitle's loop over the whole string. */
  function CountTypes(s: string): Counts
    decreases |s|
  {
    if |s| == 0 then Counts(0, 0, 0, 0) else Tally(CountTypes(s[..|s| - 1]), GetCharType(s[|s| - 1]))
  }

  predicate HasType(s: string, t: CharType) {
    exists i :: 0 <= i < |s| && GetCharType(s[i]) == t
  }

  /** Each count is positive exactly when a character of that class occurs. */
  lemma {:induction false} CountsPositive(s: string)
    ensures CountTypes(s).chinese > 0 <==> HasType(s, Chinese)
    ensures CountTypes(s).japanese > 0 <==> HasType(s, Japanese)
    ensures CountTypes(s).korean > 0 <==> HasType(s, Korean)
    ensures CountTypes(s).english > 0 <==> HasType(s, English)
    decreases |s|
  {
    if |s| > 0 {
      var p := s[..|s| - 1];
      CountsPositive(p);
      forall t ensures HasType(s, t) <==> HasType(p, t) || GetCharType(s[|s| - 1]) == t {
        if HasType(s, t) {
          var i :| 0 <= i < |s| && GetCharType(s[i]) == t;
          if i < |s| - 1 {
            assert p[i] == s[i];
          }
        }
        if HasType(p, t) {
          var i :| 0 <= i < |p| && GetCharType(p[i]) == t;
          assert s[i] == p[i];
        }
      }
    }
  }

  datatype Language = LangChinese | LangJapanese | LangKorean | LangEnglish | Mixed

  datatype Analysis = Analysis(hasChinese: bool, hasJapanese: bool, hasKorean: bool, hasEnglish: bool, primary: Language)

  function Max4(a: nat, b: nat, c: nat, d: nat): (m: nat)
    ensures a <= m && b <= m && c <= m && d <= m
    ensures m == a || m == b || m == c || m == d
  {
    var ab := if a < b then b else a;
    var cd := if c < d then d else c;
    if ab < cd then cd else ab
  }

  /**
    The analysis of a title with counts `c`: each flag says its count is
    positive; the primary language is the first of Chinese, Japanese, Korean
    and English whose count is the maximum, or mixed when every count is 0.
   */
  function AnalysisOf(c: Counts): (a: Analysis)
    ensures a.hasChinese <==> c.chinese > 0
    ensures a.hasJapanese <==> c.japanese > 0
    ensures a.hasKorean <==> c.korean > 0
    ensures a.hasEnglish <==> c.english > 0
    ensures a.primary == Mixed <==> c.chinese == 0 && c.japanese == 0 && c.korean == 0 && c.english == 0
    ensures var m := Max4(c.chinese, c.japanese, c.korean, c.english);
            && (a.primary == LangChinese ==> c.chinese == m)
            && (a.primary == LangJapanese ==> c.japanese == m && c.chinese < m)
            && (a.primary == LangKorean ==> c.korean == m && c.chinese < m && c.japanese < m)
            && (a.primary == LangEnglish ==> c.english == m && c.chinese < m && c.japanese < m && c.korean < m)
  {
    var m := Max4(c.chinese, c.japanese, c.korean, c.english);
    var primary :=
      if m == 0 then Mixed
      else if c.chinese == m then LangChinese
      else if c.japanese == m then LangJapanese
      else if c.korean == m then LangKorean
      else LangEnglish;
    Analysis(c.chinese > 0, c.japanese > 0, c.korean > 0, c.english > 0, primary)
  }

  /** analyzeTitle */
  method AnalyzeTitle(title: string) returns (a: Analysis)
    ensures a == AnalysisOf(CountTypes(title))
  {
    var chinese: nat, japanese: nat, korean: nat, english: nat := 0, 0, 0, 0;
    var i := 0;
    while i < |title|
      invariant 0 <= i <= |title|
      invariant Counts(chinese, japanese, korean, english) == CountTypes(title[..i])
    {
      assert title[..i + 1][..i] == title[..i];
      var t := GetCharType(title[i]);
      if t == Chinese {
        chinese := chinese + 1;
      } else if t == Japanese {
        japanese := japanese + 1;
      } else if t == Korean {
        korean := korean + 1;
      } else if t == English {
        english := english + 1;
      }
      i := i + 1;
    }
    assert title[..|title|] == title;
    var max := Max4(chinese, japanese, korean, english);
    var primary := Mixed;
    if max > 0 {
      if chinese == max {
        primary := LangChinese;
      } else if japanese == max {
        primary := LangJapanese;
      } else if korean == max {
        primary := LangKorean;
      } else if english == max {
        primary := LangEnglish;
      }
    }
    return Analysis(chinese > 0, japanese > 0, korean > 0, english > 0, primary);
  }

  /** The analysis's flags say which classes occur in the title. */
  lemma AnalysisFlags(title: string)
    ensures AnalysisOf(CountTypes(title)).hasChinese <==> HasType(title, Chinese)
    ensures AnalysisOf(CountTypes(title)).hasJapanese <==> HasType(title, Japanese)
    ensures AnalysisOf(CountTypes(title)).hasKorean <==> HasType(title, Korean)
    ensures AnalysisOf(CountTypes(title)).hasEnglish <==> HasType(title, English)
  {
    CountsPositive(title);
  }

  // ---------------------------------------------------------------------------
  // Regular-expression replacements
  // ---------------------------------------------------------------------------

  /** `[\u200B-\u200F\u2028-\u202F\uFEFF]` */
  predicate IsFormatChar(c: char) {
    (0x200B <= c as int <= 0x200F) || (0x2028 <= c as int <= 0x202F) || c as int == 0xFEFF
  }

  /** `.replace(/[...]/g, '')` for a one-character class. */
  function RemoveChars(s: string, drop: char -> bool): (r: string)
    ensures forall i :: 0 <= i < |r| ==> !drop(r[i]) && r[i] in s
    ensures (forall i :: 0 <= i < |s| ==> !drop(s[i])) ==> r == s
    ensures |r| <= |s|
  {
    if |s| == 0 then ""
    else
      var rest := RemoveChars(s[1..], drop);
      assert forall x :: x in s[1..] ==> x in s;
      if drop(s[0]) then rest else [s[0]] + rest
  }

  lemma {:induction false} RemoveCharsConcat(a: string, b: string, drop: char -> bool)
    ensures RemoveChars(a + b, drop) == RemoveChars(a, drop) + RemoveChars(b, drop)
    decreases |a|
  {
    if |a| == 0 {
      assert a + b == b;
    } else {
      assert (a + b)[0] == a[0];
      assert (a + b)[1..] == a[1..] + b;
      RemoveCharsConcat(a[1..], b, drop);
    }
  }

  /** Removing twice removes nothing more. */
  lemma RemoveCharsIdempotent(s: string, drop: char -> bool)
    ensures RemoveChars(RemoveChars(s, drop), drop) == RemoveChars(s, drop)
  {
  }

  // The year marker `\s*[\(（]\d{4}[\)）]\s*`.

  predicate IsOpenParen(c: char) {
    c == '(' || c == '\U{FF08}'
  }

  predicate IsCloseParen(c: char) {
    c == ')' || c == '\U{FF09}'
  }

  /** The end of the run of white space starting at `i`. */
  function SpaceRunEnd(s: string, i: nat): (j: nat)
    requires i <= |s|
    ensures i <= j <= |s|
    ensures forall k :: i <= k < j ==> IsJsSpace(s[k])
    ensures j < |s| ==> !IsJsSpace(s[j])
    decreases |s| - i
  {
    if i < |s| && IsJsSpace(s[i]) then SpaceRunEnd(s, i + 1) else i
  }

  predicate MarkerAt(s: string, j: nat) {
    j + 6 <= |s| && IsOpenParen(s[j]) && IsAsciiDigit(s[j + 1]) && IsAsciiDigit(s[j + 2])
    && IsAsciiDigit(s[j + 3]) && IsAsciiDigit(s[j + 4]) && IsCloseParen(s[j + 5])
  }

  /** The end of a year-marker match starting at `i`, if one starts there. */
  function YearMatchAt(s: string, i: nat): (r: Option<nat>)
    requires i <= |s|
    ensures r.Some? ==> i + 6 <= r.value <= |s|
  {
    var j := SpaceRunEnd(s, i);
    if MarkerAt(s, j) then Some(SpaceRunEnd(s, j + 6)) else None
  }

  /** `.replace(/\s*[\(（]\d{4}[\)）]\s*\/g, '')`, scanning left to right. */
  function RemoveYears(s: string): (r: string)
    ensures |r| <= |s|
    decreases |s|
  {
    if |s| == 0 then ""
    else match YearMatchAt(s, 0)
      case Some(e) => RemoveYears(s[e..])
      case None => [s[0]] + RemoveYears(s[1..])
  }

  /** White space that is followed by something other than space is kept by TrimEnd. */
  lemma {:induction false} TrimEndCons(c: char, x: string)
    requires !IsJsSpace(c) || exists k :: 0 <= k < |x| && !IsJsSpace(x[k])
    ensures TrimEnd([c] + x) == [c] + TrimEnd(x)
    decreases |x|
  {
    if |x| > 0 {
      var s := [c] + x;
      assert s[..|s| - 1] == [c] + x[..|x| - 1];
      if IsJsSpace(x[|x| - 1]) {
        if !IsJsSpace(c) {
          TrimEndCons(c, x[..|x| - 1]);
        } else {
          var k :| 0 <= k < |x| && !IsJsSpace(x[k]);
          assert k < |x| - 1 && x[..|x| - 1][k] == x[k];
          TrimEndCons(c, x[..|x| - 1]);
        }
      }
    } else {
      assert [c] + x == [c];
    }
  }

  lemma AllSpaceTrimEnd(x: string)
    requires forall k :: 0 <= k < |x| ==> IsJsSpace(x[k])
    ensures TrimEnd(x) == ""
    decreases |x|
  {
    if |x| > 0 {
      AllSpaceTrimEnd(x[..|x| - 1]);
    }
  }

  /**
    A title ending in a year marker such as " (2009)" loses the marker and
    the white space before it, and nothing else.
   */
  lemma {:induction false} TrailingYearRemoved(s: string, year: string)
    requires |year| == 4 && forall k :: 0 <= k < 4 ==> IsAsciiDigit(year[k])
    requires forall k :: 0 <= k < |s| ==> !IsOpenParen(s[k])
    ensures RemoveYears(s + " (" + year + ")") == TrimEnd(s)
    decreases |s|
  {
    var t := s + " (" + year + ")";
    if forall k :: 0 <= k < |s| ==> IsJsSpace(s[k]) {
      AllSpaceTrimEnd(s);
      SpacesThenYear(s, year);
    } else {
      var k :| 0 <= k < |s| && !IsJsSpace(s[k]);
      NoYearAtStart(s, year, k);
      assert t[1..] == s[1..] + " (" + year + ")";
      forall k | 0 <= k < |s[1..]| ensures !IsOpenParen(s[1..][k]) {
        assert s[1..][k] == s[k + 1];
      }
      TrailingYearRemoved(s[1..], year);
      if IsJsSpace(s[0]) {
        assert k > 0 && s[1..][k - 1] == s[k];
      }
      TrimEndCons(s[0], s[1..]);
      assert s == [s[0]] + s[1..];
    }
  }

  lemma SpacesThenYear(s: string, year: string)
    requires |year| == 4 && forall k :: 0 <= k < 4 ==> IsAsciiDigit(year[k])
    requires forall k :: 0 <= k < |s| ==> IsJsSpace(s[k])
    ensures RemoveYears(s + " (" + year + ")") == ""
  {
    var t := s + " (" + year + ")";
    SpaceRunFrom(t, 0, |s| + 1);
    assert MarkerAt(t, |s| + 1);
    assert SpaceRunEnd(t, |s| + 7) == |t|;
    assert t[|t|..] == "";
  }

  lemma NoYearAtStart(s: string, year: string, k: nat)
    requires forall k :: 0 <= k < |s| ==> !IsOpenParen(s[k])
    requires k < |s| && !IsJsSpace(s[k])
    ensures YearMatchAt(s + " (" + year + ")", 0).None?
  {
    var t := s + " (" + year + ")";
    assert t[k] == s[k];
    var j := SpaceRunEnd(t, 0);
    assert j <= k;
    assert t[j] == s[j];
  }

  lemma {:induction false} SpaceRunFrom(s: string, i: nat, j: nat)
    requires i <= j < |s|
    requires forall k :: i <= k < j ==> IsJsSpace(s[k])
    requires !IsJsSpace(s[j])
    ensures SpaceRunEnd(s, i) == j
    decreases j - i
  {
    if i < j {
      SpaceRunFrom(s, i + 1, j);
    }
  }

  // ---------------------------------------------------------------------------
  // extractChinese
  // ---------------------------------------------------------------------------

  /** The index of the first white-space character. */
  function FirstSpace(s: string): (r: Option<nat>)
    ensures r.Some? ==> r.value < |s| && IsJsSpace(s[r.value])
    ensures forall k :: 0 <= k < (if r.Some? then r.value else |s|) ==> !IsJsSpace(s[k])
    decreases |s|
  {
    if |s| == 0 then None
    else if IsJsSpace(s[0]) then Some(0)
    else match FirstSpace(s[1..])
      case Some(i) => Some(i + 1)
      case None => None
  }

  /** `s.split(/\s+/)` */
  function SplitSpaces(s: string): (parts: seq<string>)
    ensures |parts| >= 1
    decreases |s|
  {
    match FirstSpace(s)
    case None => [s]
    case Some(i) =>
      var e := SpaceRunEnd(s, i);
      var rest := SplitSpaces(s[e..]);
      [s[..i]] + rest
  }

  /** Whether `p` has a character in the code-point range `lo`..`hi`. */
  predicate HasCharIn(p: string, lo: int, hi: int)
    decreases |p|
  {
    |p| > 0 && ((lo <= p[0] as int <= hi) || HasCharIn(p[1..], lo, hi))
  }

  /** No part of the split holds white space. */
  lemma {:induction false} SplitSpacesClean(s: string)
    ensures forall p, k :: p in SplitSpaces(s) && 0 <= k < |p| ==> !IsJsSpace(p[k])
    decreases |s|
  {
    match FirstSpace(s)
    case None =>
    case Some(i) =>
      var e := SpaceRunEnd(s, i);
      SplitSpacesClean(s[e..]);
  }

  predicate HasHiragana(p: string) {
    HasCharIn(p, 0x3040, 0x309F)
  }

  predicate HasKatakana(p: string) {
    HasCharIn(p, 0x30A0, 0x30FF)
  }

  /** `/[\u4E00-\u9FFF]/`: the basic CJK block only. */
  predicate HasHan(p: string) {
    HasCharIn(p, 0x4E00, 0x9FFF)
  }

  /** A part extractChinese may return: it has a Han character and at least two code units. */
  predicate HanPart(p: string) {
    HasHan(p) && Utf16Len(p) >= 2
  }

  predicate KanaFree(p: string) {
    !HasHiragana(p) && !HasKatakana(p)
  }

  /** The first part the first loop accepts; parts with kana are skipped. */
  function FirstPureHan(parts: seq<string>): (r: Option<nat>)
    ensures r.Some? ==> r.value < |parts| && KanaFree(parts[r.value]) && HanPart(parts[r.value])
    ensures r.None? ==> forall k :: 0 <= k < |parts| ==> !(KanaFree(parts[k]) && HanPart(parts[k]))
    ensures r.Some? ==> forall k :: 0 <= k < r.value ==> !(KanaFree(parts[k]) && HanPart(parts[k]))
  {
    if |parts| == 0 then None
    else if KanaFree(parts[0]) && HanPart(parts[0]) then Some(0)
    else match FirstPureHan(parts[1..])
      case Some(i) => Some(i + 1)
      case None => None
  }

  function FirstHan(parts: seq<string>): (r: Option<nat>)
    ensures r.Some? ==> r.value < |parts| && HanPart(parts[r.value])
    ensures r.None? ==> forall k :: 0 <= k < |parts| ==> !HanPart(parts[k])
    ensures r.Some? ==> forall k :: 0 <= k < r.value ==> !HanPart(parts[k])
  {
    if |parts| == 0 then None
    else if HanPart(parts[0]) then Some(0)
    else match FirstHan(parts[1..])
      case Some(i) => Some(i + 1)
      case None => None
  }

  /** What extractChinese returns for the parts of a title. */
  function ChineseOf(parts: seq<string>): string {
    match FirstPureHan(parts)
    case Some(i) => parts[i]
    case None =>
      match FirstHan(parts)
      case Some(i) => parts[i]
      case None => ""
  }

  lemma FirstPureHanAt(parts: seq<string>, i: nat)
    requires i < |parts| && KanaFree(parts[i]) && HanPart(parts[i])
    requires forall k :: 0 <= k < i ==> !(KanaFree(parts[k]) && HanPart(parts[k]))
    ensures FirstPureHan(parts) == Some(i)
  {
  }

  lemma FirstHanAt(parts: seq<string>, i: nat)
    requires i < |parts| && HanPart(parts[i])
    requires forall k :: 0 <= k < i ==> !HanPart(parts[k])
    ensures FirstHan(parts) == Some(i)
  {
  }

  /** extractChinese: the first kana-free part with Han characters, else the first part with any. */
  method ExtractChinese(title: string) returns (r: string)
    ensures r == ChineseOf(SplitSpaces(title))
  {
    var parts := SplitSpaces(title);
    var i := 0;
    while i < |parts|
      invariant 0 <= i <= |parts|
      invariant forall k :: 0 <= k < i ==> !(KanaFree(parts[k]) && HanPart(parts[k]))
    {
      var part := parts[i];
      if HasHiragana(part) || HasKatakana(part) {
        i := i + 1;
        continue;
      }
      if HasHan(part) && Utf16Len(part) >= 2 {
        FirstPureHanAt(parts, i);
        return part;
      }
      i := i + 1;
    }
    i := 0;
    while i < |parts|
      invariant 0 <= i <= |parts|
      invariant FirstPureHan(parts).None?
      invariant forall k :: 0 <= k < i ==> !HanPart(parts[k])
    {
      if HasHan(parts[i]) && Utf16Len(parts[i]) >= 2 {
        FirstHanAt(parts, i);
        return parts[i];
      }
      i := i + 1;
    }
    return "";
  }

  /**
    extractChinese returns "" or one of the parts, with a Han character and
    two code units; "" exactly when no part qualifies; and a kana-free part
    whenever one qualifies.
   */
  lemma ChineseOfFacts(parts: seq<string>)
    ensures var r := ChineseOf(parts);
            && (r == "" || (r in parts && HanPart(r)))
            && (r == "" <==> forall k :: 0 <= k < |parts| ==> !HanPart(parts[k]))
            && ((exists k :: 0 <= k < |parts| && KanaFree(parts[k]) && HanPart(parts[k])) ==> KanaFree(r))
  {
  }

  // ---------------------------------------------------------------------------
  // extractEnglish
  // ---------------------------------------------------------------------------

  predicate IsAsciiLetter(c: char) {
    'A' <= c <= 'Z' || 'a' <= c <= 'z'
  }

  /** `[A-Za-z0-9\s:\-']` */
  predicate IsEnglishBody(c: char) {
    IsAsciiLetter(c) || IsAsciiDigit(c) || IsJsSpace(c) || c == ':' || c == '-' || c == '\''
  }

  function BodyRunEnd(s: string, i: nat): (j: nat)
    requires i <= |s|
    ensures i <= j <= |s|
    ensures forall k :: i <= k < j ==> IsEnglishBody(s[k])
    decreases |s| - i
  {
    if i < |s| && IsEnglishBody(s[i]) then BodyRunEnd(s, i + 1) else i
  }

  /** The matches of `/[A-Za-z][A-Za-z0-9\s:\-']+/g` from index `i` on. */
  function EnglishMatches(s: string, i: nat): (ms: seq<string>)
    requires i <= |s|
    ensures forall m :: m in ms ==> |m| >= 2 && IsAsciiLetter(m[0])
    decreases |s| - i
  {
    if i + 1 >= |s| then []
    else if IsAsciiLetter(s[i]) && IsEnglishBody(s[i + 1]) then
      var e := BodyRunEnd(s, i + 1);
      [s[i..e]] + EnglishMatches(s, e)
    else EnglishMatches(s, i + 1)
  }

  /** `matches.reduce((a, b) => a.length > b.length ? a : b, acc)` */
  function Longest(ms: seq<string>, acc: string): string {
    if |ms| == 0 then acc else Longest(ms[1..], if |acc| > |ms[0]| then acc else ms[0])
  }

  /**
    The reduce keeps a longest entry, and the last of several equally long
    ones; the start value survives only when every entry is shorter.
   */
  lemma {:induction false} LongestIsLastLongest(ms: seq<string>, acc: string)
    ensures var r := Longest(ms, acc);
            && |acc| <= |r|
            && (forall j :: 0 <= j < |ms| ==> |ms[j]| <= |r|)
            && ((forall j :: 0 <= j < |ms| ==> |ms[j]| < |acc|) ==> r == acc)
            && ((exists j :: 0 <= j < |ms| && |ms[j]| >= |acc|) ==>
                  exists k :: 0 <= k < |ms| && r == ms[k] && forall j :: k < j < |ms| ==> |ms[j]| < |r|)
    decreases |ms|
  {
    if |ms| > 0 {
      var next := if |acc| > |ms[0]| then acc else ms[0];
      LongestIsLastLongest(ms[1..], next);
      var r := Longest(ms, acc);
      assert r == Longest(ms[1..], next);
      forall j | 0 <= j < |ms| ensures |ms[j]| <= |r| {
        if j > 0 {
          assert ms[j] == ms[1..][j - 1];
        }
      }
      if exists j :: 0 <= j < |ms| && |ms[j]| >= |acc| {
        if exists j :: 0 <= j < |ms[1..]| && |ms[1..][j]| >= |next| {
          var k :| 0 <= k < |ms[1..]| && r == ms[1..][k] && forall j :: k < j < |ms[1..]| ==> |ms[1..][j]| < |r|;
          forall j | k + 1 < j < |ms| ensures |ms[j]| < |r| {
            assert ms[j] == ms[1..][j - 1];
          }
          assert r == ms[k + 1];
        } else {
          assert r == next;
          forall j | 0 < j < |ms| ensures |ms[j]| < |r| {
            assert ms[j] == ms[1..][j - 1];
          }
          assert r == ms[0];
        }
      }
    }
  }

  /** extractEnglish */
  function ExtractEnglish(s: string): (r: string)
    ensures EnglishMatches(s, 0) == [] ==> r == ""
  {
    var ms := EnglishMatches(s, 0);
    if ms == [] then "" else Trim(Longest(ms, ""))
  }

  /** extractEnglish returns the last of the longest matches, trimmed. */
  lemma ExtractEnglishLongest(s: string)
    requires EnglishMatches(s, 0) != []
    ensures var ms := EnglishMatches(s, 0);
            exists k :: 0 <= k < |ms| && ExtractEnglish(s) == Trim(ms[k])
                        && (forall j :: 0 <= j < |ms| ==> |ms[j]| <= |ms[k]|)
                        && (forall j :: k < j < |ms| ==> |ms[j]| < |ms[k]|)
  {
    var ms := EnglishMatches(s, 0);
    LongestIsLastLongest(ms, "");
    assert |ms[0]| >= |""|;
  }

  // ---------------------------------------------------------------------------
  // The later steps of cleanTitleForSearch
  // ---------------------------------------------------------------------------

  /** `[：:—\-]` */
  predicate IsSubtitleSep(c: char) {
    c == '\U{FF1A}' || c == ':' || c == '\U{2014}' || c == '-'
  }

  function FirstSep(s: string): (r: Option<nat>)
    ensures r.Some? ==> r.value < |s| && IsSubtitleSep(s[r.value])
    ensures forall k :: 0 <= k < (if r.Some? then r.value else |s|) ==> !IsSubtitleSep(s[k])
  {
    if |s| == 0 then None
    else if IsSubtitleSep(s[0]) then Some(0)
    else match FirstSep(s[1..])
      case Some(i) => Some(i + 1)
      case None => None
  }

  /** `/^([^：:—\-]+)[：:—\-]/` and the `length >= 2` test: keep the head before the first separator. */
  function CutSubtitle(s: string): (r: string)
    ensures r == s || (StartsWith(s, r) && |r| < |s| && IsSubtitleSep(s[|r|]) && Utf16Len(r) >= 2)
    ensures forall k :: 0 <= k < |r| && r != s ==> !IsSubtitleSep(r[k])
  {
    match FirstSep(s)
    case Some(i) =>
      if i >= 1 && Utf16Len(s[..i]) >= 2 then s[..i] else s
    case None => s
  }

  /** `.replace(/\d+$/g, '')` */
  function DropTrailingDigits(s: string): (r: string)
    ensures StartsWith(s, r) && (|r| > 0 ==> !IsAsciiDigit(r[|r| - 1]))
    ensures forall k :: |r| <= k < |s| ==> IsAsciiDigit(s[k])
    decreases |s|
  {
    if |s| > 0 && IsAsciiDigit(s[|s| - 1]) then
      var r := DropTrailingDigits(s[..|s| - 1]);
      assert s[..|s| - 1][..|r|] == s[..|r|];
      r
    else s
  }

  /** `.replace(/\s+/g, ' ')` */
  function CollapseSpaces(s: string): (r: string)
    ensures forall k :: 0 <= k < |r| && IsJsSpace(r[k]) ==> r[k] == ' '
    decreases |s|
  {
    if |s| == 0 then ""
    else if IsJsSpace(s[0]) then " " + CollapseSpaces(s[SpaceRunEnd(s, 0)..])
    else [s[0]] + CollapseSpaces(s[1..])
  }

  /** `[\s：:·\-—]` */
  predicate IsEdgeChar(c: char) {
    IsJsSpace(c) || c == '\U{FF1A}' || c == ':' || c == '\U{B7}' || c == '-' || c == '\U{2014}'
  }

  function DropEdgeStart(s: string): (r: string)
    ensures |r| > 0 ==> !IsEdgeChar(r[0])
    ensures |r| <= |s|
    decreases |s|
  {
    if |s| > 0 && IsEdgeChar(s[0]) then DropEdgeStart(s[1..]) else s
  }

  function DropEdgeEnd(s: string): (r: string)
    ensures |r| > 0 ==> !IsEdgeChar(r[|r| - 1])
    ensures StartsWith(s, r)
    decreases |s|
  {
    if |s| > 0 && IsEdgeChar(s[|s| - 1]) then
      var r := DropEdgeEnd(s[..|s| - 1]);
      assert s[..|s| - 1][..|r|] == s[..|r|];
      r
    else s
  }

  lemma DropEdgeEndKeepsStart(s: string)
    ensures |DropEdgeEnd(s)| > 0 ==> DropEdgeEnd(s)[0] == s[0]
  {
  }

  /** The final tidy-up: collapse spaces, strip edge symbols, trim. */
  function Tidy(s: string): (r: string)
    ensures |r| > 0 ==> !IsEdgeChar(r[0]) && !IsEdgeChar(r[|r| - 1])
  {
    var t := DropEdgeEnd(DropEdgeStart(CollapseSpaces(s)));
    DropEdgeEndKeepsStart(DropEdgeStart(CollapseSpaces(s)));
    TrimNoop(t);
    Trim(t)
  }

  // ---------------------------------------------------------------------------
  // cleanTitleForSearch
  // ---------------------------------------------------------------------------

  datatype CleanOptions = CleanOptions(preferChinese: bool, keepNumbers: bool, keepSubtitle: bool)

  const DefaultOptions := CleanOptions(true, true, false)

  /** Steps 1 and 2: format characters, then year markers. */
  function Cleaned(title: string): string {
    RemoveYears(RemoveChars(title, IsFormatChar))
  }

  /** Step 3: the language-dependent choice of `result`. */
  function Choose(cleaned: string, opts: CleanOptions): string {
    var a := AnalysisOf(CountTypes(cleaned));
    if opts.preferChinese && a.hasChinese then
      var c := ChineseOf(SplitSpaces(cleaned));
      if Utf16Len(c) < 2 then cleaned else c
    else if a.hasEnglish then ExtractEnglish(cleaned)
    else cleaned
  }

  /** Steps 4 to 6 and the fallback to the original title. */
  function Finish(title: string, chosen: string, opts: CleanOptions): (r: string)
    ensures title != "" ==> r != ""
    ensures r != title ==> |r| > 0 && !IsEdgeChar(r[0]) && !IsEdgeChar(r[|r| - 1])
  {
    var r := if opts.keepSubtitle then chosen else CutSubtitle(chosen);
    var r := if opts.keepNumbers then r else DropTrailingDigits(r);
    var r := Tidy(r);
    if r != "" then r else title
  }

  function CleanTitle(title: string, opts: CleanOptions): (r: string)
    ensures r == "" <==> title == ""
    ensures r != title ==> !IsEdgeChar(r[0]) && !IsEdgeChar(r[|r| - 1])
  {
    if title == "" then "" else Finish(title, Choose(Cleaned(title), opts), opts)
  }

  /** cleanTitleForSearch */
  method CleanTitleForSearch(title: string, opts: CleanOptions) returns (r: string)
    ensures r == CleanTitle(title, opts)
  {
    if title == "" {
      return "";
    }
    var cleaned := RemoveChars(title, IsFormatChar);
    cleaned := RemoveYears(cleaned);
    var analysis := AnalyzeTitle(cleaned);
    var result := "";
    if opts.preferChinese && analysis.hasChinese {
      result := ExtractChinese(cleaned);
      if Utf16Len(result) < 2 {
        result := cleaned;
      }
    } else if analysis.hasEnglish {
      result := ExtractEnglish(cleaned);
    } else {
      result := cleaned;
    }
    if !opts.keepSubtitle {
      result := CutSubtitle(result);
    }
    if !opts.keepNumbers {
      result := DropTrailingDigits(result);
    }
    result := Tidy(result);
    return if result != "" then result else title;
  }

  /** A result that is not the original title has been through the tidy-up. */
  lemma CleanTitleShape(title: string, opts: CleanOptions)
    requires title != ""
    ensures var r := CleanTitle(title, opts);
            r != "" && (r == title || r == Tidy(Finish(title, Choose(Cleaned(title), opts), opts)) || r == Finish(title, Choose(Cleaned(title), opts), opts))
  {
  }

  // ---------------------------------------------------------------------------
  // generateSearchVariants
  // ---------------------------------------------------------------------------

  predicate NoDuplicates(s: seq<string>) {
    forall i, j :: 0 <= i < j < |s| ==> s[i] != s[j]
  }

  /** `[...new Set(s)]`: first occurrences, in order. */
  function Dedup(s: seq<string>): (r: seq<string>)
    ensures NoDuplicates(r)
    ensures forall x :: x in r <==> x in s
    ensures |s| > 0 ==> |r| > 0 && r[0] == s[0]
    decreases |s|
  {
    if |s| == 0 then []
    else
      var init := s[..|s| - 1];
      var d := Dedup(init);
      assert forall x :: x in init ==> x in s;
      assert s == init + [s[|s| - 1]];
      if s[|s| - 1] in d then d else d + [s[|s| - 1]]
  }

  /**
    The pushes of generateSearchVariants, before the final de-duplication,
    given its four clean-ups and whether the title mixes Chinese and English.
   */
  function PushesOf(main: string, withSubtitle: string, withoutNumber: string, mixed: bool, english: string): seq<string> {
    var v1 := if main != "" then [main] else [];
    var v2 := if withSubtitle != "" && withSubtitle != main then v1 + [withSubtitle] else v1;
    var v3 := if withoutNumber != "" && withoutNumber != main && Utf16Len(withoutNumber) >= 2 then v2 + [withoutNumber] else v2;
    if mixed && english != "" && english !in v3 then v3 + [english] else v3
  }

  function Pushes(title: string): seq<string> {
    var a := AnalysisOf(CountTypes(title));
    var mixed := a.hasChinese && a.hasEnglish;
    PushesOf(CleanTitle(title, DefaultOptions), CleanTitle(title, DefaultOptions.(keepSubtitle := true)),
             CleanTitle(title, DefaultOptions.(keepNumbers := false)), mixed,
             if mixed then CleanTitle(title, DefaultOptions.(preferChinese := false)) else "")
  }

  /** The pushes of generateSearchVariants onto `variants`. */
  method PushVariants(mainTitle: string, withSubtitle: string, withoutNumber: string, mixed: bool, englishTitle: string)
    returns (variants: seq<string>)
    ensures variants == PushesOf(mainTitle, withSubtitle, withoutNumber, mixed, englishTitle)
  {
    variants := [];
    if mainTitle != "" {
      variants := variants + [mainTitle];
    }
    if withSubtitle != "" && withSubtitle != mainTitle {
      variants := variants + [withSubtitle];
    }
    if withoutNumber != "" && withoutNumber != mainTitle && Utf16Len(withoutNumber) >= 2 {
      variants := variants + [withoutNumber];
    }
    if mixed && englishTitle != "" && englishTitle !in variants {
      variants := variants + [englishTitle];
    }
  }

  /** generateSearchVariants */
  method GenerateSearchVariants(title: string) returns (variants: seq<string>)
    ensures variants == Dedup(Pushes(title))
  {
    var mainTitle := CleanTitleForSearch(title, DefaultOptions);
    var withSubtitle := CleanTitleForSearch(title, DefaultOptions.(keepSubtitle := true));
    var withoutNumber := CleanTitleForSearch(title, DefaultOptions.(keepNumbers := false));
    var analysis := AnalyzeTitle(title);
    var mixed := analysis.hasChinese && analysis.hasEnglish;
    var englishTitle := "";
    if mixed {
      englishTitle := CleanTitleForSearch(title, DefaultOptions.(preferChinese := false));
    }
    variants := PushVariants(mainTitle, withSubtitle, withoutNumber, mixed, englishTitle);
    variants := Dedup(variants);
  }

  /** Only non-empty strings are pushed, and `main` first when it is non-empty. */
  lemma PushesFacts(main: string, withSubtitle: string, withoutNumber: string, mixed: bool, english: string)
    ensures var p := PushesOf(main, withSubtitle, withoutNumber, mixed, english);
            && (forall v :: v in p ==> v != "")
            && (main != "" ==> |p| >= 1 && p[0] == main)
            && (main == "" && withSubtitle == "" && withoutNumber == "" && english == "" ==> p == [])
  {
  }

  /**
    The variants have no duplicates and no empty entries, an empty title has
    none, and any other title has its default clean-up first.
   */
  lemma VariantsFacts(title: string)
    ensures NoDuplicates(Dedup(Pushes(title)))
    ensures forall v :: v in Dedup(Pushes(title)) ==> v != ""
    ensures title == "" <==> Dedup(Pushes(title)) == []
    ensures title != "" ==> Dedup(Pushes(title))[0] == CleanTitle(title, DefaultOptions)
  {
    var a := AnalysisOf(CountTypes(title));
    var mixed := a.hasChinese && a.hasEnglish;
    PushesFacts(CleanTitle(title, DefaultOptions), CleanTitle(title, DefaultOptions.(keepSubtitle := true)),
                CleanTitle(title, DefaultOptions.(keepNumbers := false)), mixed,
                if mixed then CleanTitle(title, DefaultOptions.(preferChinese := false)) else "");
  }

  // ---------------------------------------------------------------------------
  // normalizeTitle and calculateTitleSimilarity
  // ---------------------------------------------------------------------------

  /** `[：:·\-—'"「」『』【】\[\]()（）]` */
  predicate IsTitlePunct(c: char) {
    c == '\U{FF1A}' || c == ':' || c == '\U{B7}' || c == '-' || c == '\U{2014}' || c == '\'' || c == '"'
    || c == '\U{300C}' || c == '\U{300D}' || c == '\U{300E}' || c == '\U{300F}' || c == '\U{3010}' || c == '\U{3011}'
    || c == '[' || c == ']' || c == '(' || c == ')' || c == '\U{FF08}' || c == '\U{FF09}'
  }

  /** What normalizeTitle removes. */
  predicate Dropped(c: char) {
    IsFormatChar(c) || IsJsSpace(c) || IsTitlePunct(c)
  }

  predicate NoUpper(s: string) {
    forall k :: 0 <= k < |s| ==> !('A' <= s[k] <= 'Z')
  }

  lemma RemoveCharsNoUpper(s: string, drop: char -> bool)
    requires NoUpper(s)
    ensures NoUpper(RemoveChars(s, drop))
  {
    var r := RemoveChars(s, drop);
    forall k | 0 <= k < |r| ensures !('A' <= r[k] <= 'Z') {
      assert r[k] in s;
    }
  }

  /** normalizeTitle */
  function NormalizeTitle(title: string): (r: string)
    ensures forall k :: 0 <= k < |r| ==> !IsJsSpace(r[k]) && !IsTitlePunct(r[k]) && !IsFormatChar(r[k])
    ensures NoUpper(r)
  {
    var s1 := RemoveChars(Lower(title), IsFormatChar);
    var s2 := RemoveChars(s1, IsJsSpace);
    var s := RemoveChars(s2, IsTitlePunct);
    RemoveCharsNoUpper(Lower(title), IsFormatChar);
    RemoveCharsNoUpper(s1, IsJsSpace);
    RemoveCharsNoUpper(s2, IsTitlePunct);
    assert forall k :: 0 <= k < |s| ==> s[k] in s2;
    assert forall k :: 0 <= k < |s2| ==> s2[k] in s1;
    TrimNoop(s);
    Trim(s)
  }

  /** A string with no upper-case ASCII letter is its own lower case. */
  lemma LowerNoop(s: string)
    requires NoUpper(s)
    ensures Lower(s) == s
  {
  }

  lemma NormalizeIdempotent(title: string)
    ensures NormalizeTitle(NormalizeTitle(title)) == NormalizeTitle(title)
  {
    var n := NormalizeTitle(title);
    LowerNoop(n);
    assert RemoveChars(n, IsFormatChar) == n;
    assert RemoveChars(n, IsJsSpace) == n;
    assert RemoveChars(n, IsTitlePunct) == n;
    TrimNoop(n);
  }

  function CharSet(s: string): set<char> {
    set k | 0 <= k < |s| :: s[k]
  }

  lemma SubsetCard<T>(a: set<T>, b: set<T>)
    requires a <= b
    ensures |a| <= |b|
    decreases |a|
  {
    if a != {} {
      var x :| x in a;
      SubsetCard(a - {x}, b - {x});
    }
  }

  /** calculateTitleSimilarity, on the two normal forms. */
  function SimilarityOf(n1: string, n2: string): real {
    if n1 == n2 then 1.0
    else if Contains(n1, n2) || Contains(n2, n1) then 0.9
    else
      var a := CharSet(n1);
      var b := CharSet(n2);
      if |a + b| == 0 then 0.0 else (|a * b| as real) / (|a + b| as real)
  }

  /**
    calculateTitleSimilarity: a score in [0, 1] that does not depend on the
    order of the titles, and is 1 for titles with the same normal form.
   */
  function Similarity(title1: string, title2: string): (r: real)
    ensures 0.0 <= r <= 1.0
    ensures r == SimilarityOf(NormalizeTitle(title2), NormalizeTitle(title1))
    ensures NormalizeTitle(title1) == NormalizeTitle(title2) ==> r == 1.0
  {
    SimilarityFacts(NormalizeTitle(title1), NormalizeTitle(title2));
    SimilarityOf(NormalizeTitle(title1), NormalizeTitle(title2))
  }

  /**
    The similarity is symmetric and lies in [0, 1]; equal normal forms give 1
    and containment gives 0.9. The character-overlap ratio never divides by
    zero: two normal forms that neither equal nor contain each other are both
    non-empty.
   */
  lemma RatioBound(x: nat, y: nat)
    requires x <= y && y > 0
    ensures 0.0 <= (x as real) / (y as real) <= 1.0
  {
  }

  lemma SimilarityFacts(n1: string, n2: string)
    ensures SimilarityOf(n1, n2) == SimilarityOf(n2, n1)
    ensures 0.0 <= SimilarityOf(n1, n2) <= 1.0
    ensures n1 != n2 && !Contains(n1, n2) && !Contains(n2, n1) ==> n1 != "" && n2 != "" && |CharSet(n1) + CharSet(n2)| > 0
  {
    var a := CharSet(n1);
    var b := CharSet(n2);
    assert a * b == b * a && a + b == b + a;
    SubsetCard(a * b, a + b);
    if |a + b| > 0 {
      RatioBound(|a * b|, |a + b|);
    }
    ContainsEmpty(n1);
    ContainsEmpty(n2);
    if n1 != n2 && !Contains(n1, n2) && !Contains(n2, n1) {
      assert n1[0] in a;
    }
  }
}

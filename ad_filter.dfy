/**
  The HLS (RFC 8216) playlist ad filter of lib/player/ad-filter.ts.

  A playlist is split into lines. Lines before the first
  `#EXT-X-DISCONTINUITY` tag (section 4.3.2.3 of RFC 8216) are filtered one
  URI at a time; from the first tag on, lines are grouped into discontinuity
  blocks, the `#EXTINF` durations (section 4.3.2.1) of each block are summed,
  and a block is dropped as a whole when its duration is within bounds and one
  of its URIs looks like an advertisement.
 */
module AdFilter {
  import opened Strings

  // ---------------------------------------------------------------------------
  // Durations: the values parseFloat can produce
  // ---------------------------------------------------------------------------

  /** A JavaScript number as far as durations go: exact reals, or NaN from parseFloat. */
  datatype Num = Finite(r: real) | NaN {
    function Plus(o: Num): (s: Num)
      ensures s.Finite? <==> Finite? && o.Finite?
    {
      if Finite? && o.Finite? then Finite(r + o.r) else NaN
    }
    /** `this < x`: false for NaN. */
    predicate Below(x: real) { Finite? && r < x }
    /** `this > x`: false for NaN. */
    predicate Above(x: real) { Finite? && r > x }
  }

  predicate IsDigit(c: char) { '0' <= c <= '9' }

  /** `[0-9.]` */
  predicate IsNumChar(c: char) { IsDigit(c) || c == '.' }

  /** The longest prefix of `s` made of digits. */
  function DigitRun(s: string): (r: string)
    ensures |r| <= |s| && r == s[..|r|]
    ensures forall i :: 0 <= i < |r| ==> IsDigit(r[i])
    ensures |r| < |s| ==> !IsDigit(s[|r|])
    decreases |s|
  {
    if |s| > 0 && IsDigit(s[0]) then [s[0]] + DigitRun(s[1..]) else ""
  }

  /** The longest prefix of `s` made of `[0-9.]`. */
  function NumRun(s: string): (r: string)
    ensures |r| <= |s| && r == s[..|r|]
    ensures forall i :: 0 <= i < |r| ==> IsNumChar(r[i])
    decreases |s|
  {
    if |s| > 0 && IsNumChar(s[0]) then [s[0]] + NumRun(s[1..]) else ""
  }

  function DigitsValue(d: string): (v: nat)
    requires forall i :: 0 <= i < |d| ==> IsDigit(d[i])
    decreases |d|
  {
    if |d| == 0 then 0
    else
      assert IsDigit(d[|d| - 1]);
      10 * DigitsValue(d[..|d| - 1]) + (d[|d| - 1] as int - '0' as int)
  }

  /** The value of the digits after a decimal point: 0.d1d2... = (d1 + 0.d2...) / 10. */
  function FractionValue(d: string): (v: real)
    requires forall i :: 0 <= i < |d| ==> IsDigit(d[i])
    ensures 0.0 <= v <= 1.0
    decreases |d|
  {
    if |d| == 0 then 0.0
    else
      assert IsDigit(d[0]);
      ((d[0] as int - '0' as int) as real + FractionValue(d[1..])) / 10.0
  }

  /**
    `parseFloat(m)` for a string of digits and dots: the longest prefix of the
    form digits [ '.' digits ] with at least one digit, or NaN when there is none.
   */
  function ParseFloat(m: string): (n: Num)
    ensures |m| > 0 && IsDigit(m[0]) ==> n.Finite? && n.r >= 0.0
    ensures n.NaN? <==> |DigitRun(m)| == 0 && !(|m| > 0 && m[0] == '.' && |DigitRun(m[1..])| > 0)
    ensures n.Finite? ==> DigitsValue(DigitRun(m)) as real <= n.r <= DigitsValue(DigitRun(m)) as real + 1.0
  {
    var whole := DigitRun(m);
    var rest := m[|whole|..];
    var frac := if |rest| > 0 && rest[0] == '.' then DigitRun(rest[1..]) else "";
    if |whole| == 0 && |frac| == 0 then NaN
    else Finite(DigitsValue(whole) as real + FractionValue(frac))
  }

  /**
    The capture of `/#EXTINF:([0-9.]+)/` in `t`: the first place where the tag
    is followed by at least one `[0-9.]`, and the longest such run there.
   */
  function ExtinfNumber(t: string): (m: Option<string>)
    ensures m.Some? ==> |m.value| > 0 && forall i :: 0 <= i < |m.value| ==> IsNumChar(m.value[i])
    decreases |t|
  {
    if StartsWith(t, "#EXTINF:") && |t| > 8 && IsNumChar(t[8]) then Some(NumRun(t[8..]))
    else if |t| == 0 then None
    else ExtinfNumber(t[1..])
  }

  // ---------------------------------------------------------------------------
  // Configuration and line classification
  // ---------------------------------------------------------------------------

  /** AdFilterConfig; the list of URL regexes is one predicate. */
  datatype AdFilterConfig = AdFilterConfig(
    enabled: bool,
    isAdUrl: string -> bool,
    maxAdBlockDuration: real,
    minAdBlockDuration: real)

  predicate IsSegmentSeparator(c: char) { c == '_' || c == '-' || c == '/' }
  predicate IsSegmentEnd(c: char) { c == '_' || c == '-' || c == '/' || c == '.' }

  /** `/[_\-\/]ad[s]?[_\-\/\.]/` matching at index `i` of a lower-cased URL. */
  predicate AdSegmentAt(u: string, i: int) {
    0 <= i && i + 4 <= |u| && IsSegmentSeparator(u[i]) && u[i + 1] == 'a' && u[i + 2] == 'd'
    && (IsSegmentEnd(u[i + 3]) || (u[i + 3] == 's' && i + 5 <= |u| && IsSegmentEnd(u[i + 4])))
  }

  /** `/promo[_\-\/\.]/` matching at index `i` of a lower-cased URL. */
  predicate PromoAt(u: string, i: int) {
    MatchAt(u, "promo", i) && i + 5 < |u| && IsSegmentEnd(u[i + 5])
  }

  /**
    The default pattern list, each case-insensitive. The patterns are ASCII, and
    case-insensitive matching without the `u` flag never folds a non-ASCII
    character onto an ASCII one, so lower-casing ASCII letters is exact here.
   */
  predicate DefaultIsAdUrl(url: string) {
    var u := Lower(url);
    (exists i :: 0 <= i < |u| && AdSegmentAt(u, i))
    || Contains(u, "advertisement") || Contains(u, "advert")
    || Contains(u, "midroll") || Contains(u, "preroll") || Contains(u, "postroll")
    || Contains(u, "commerc") || Contains(u, "sponsor")
    || (exists i :: 0 <= i < |u| && PromoAt(u, i))
  }

  /** The default test ignores case: a URL and its lower-cased form are judged alike. */
  lemma DefaultIsAdUrlIgnoresCase(url: string)
    ensures DefaultIsAdUrl(url) == DefaultIsAdUrl(Lower(url))
  {
    LowerIdempotent(url);
  }

  /** DEFAULT_AD_FILTER_CONFIG: enabled, blocks of 3 to 120 seconds. */
  const DefaultConfig: AdFilterConfig := AdFilterConfig(true, DefaultIsAdUrl, 120.0, 3.0)

  const Marker: string := "#EXT-X-DISCONTINUITY"

  predicate IsMarker(line: string) { Trim(line) == Marker }

  /** A trimmed line that is neither empty nor a tag or comment: a media URI. */
  predicate IsUriLine(line: string) {
    var t := Trim(line); |t| > 0 && !StartsWith(t, "#")
  }

  predicate IsExtinf(line: string) { StartsWith(Trim(line), "#EXTINF:") }

  /** A URI line that the configured patterns flag; being a URI line, it is never a tag. */
  predicate IsAdUriLine(line: string, cfg: AdFilterConfig)
    ensures IsAdUriLine(line, cfg) ==> !IsMarker(line) && !IsExtinf(line) && cfg.isAdUrl(Trim(line))
  {
    IsUriLine(line) && cfg.isAdUrl(Trim(line))
  }

  /** What one trimmed line adds to a block's duration. */
  function LineDuration(t: string): Num {
    if StartsWith(t, "#EXTINF:") then
      match ExtinfNumber(t)
      case None => Finite(0.0)
      case Some(m) => ParseFloat(m)
    else Finite(0.0)
  }

  /** Everything the filter looks at in one line, worked out once. */
  datatype LineInfo = LineInfo(text: string, marker: bool, ad: bool, duration: Num)

  function Classify(line: string, cfg: AdFilterConfig): (info: LineInfo)
    ensures info.text == line
    ensures info.marker ==> !info.ad && info.duration == Finite(0.0)
  {
    var t := Trim(line);
    assert t == Marker ==> t[0] == '#' && t[4] != "#EXTINF:"[4];
    LineInfo(line, IsMarker(line), IsAdUriLine(line, cfg), LineDuration(t))
  }

  function ClassifyAll(lines: seq<string>, cfg: AdFilterConfig): (infos: seq<LineInfo>)
    ensures |infos| == |lines|
    decreases |lines|
  {
    if |lines| == 0 then [] else ClassifyAll(lines[..|lines| - 1], cfg) + [Classify(lines[|lines| - 1], cfg)]
  }

  lemma {:induction false} ClassifyAllIndex(lines: seq<string>, cfg: AdFilterConfig, k: nat)
    requires k < |lines|
    ensures ClassifyAll(lines, cfg)[k] == Classify(lines[k], cfg)
    decreases |lines|
  {
    if k < |lines| - 1 {
      ClassifyAllIndex(lines[..|lines| - 1], cfg, k);
    }
  }

  lemma ClassifyAllSlice(lines: seq<string>, cfg: AdFilterConfig, a: nat, b: nat)
    requires a <= b <= |lines|
    ensures ClassifyAll(lines[a..b], cfg) == ClassifyAll(lines, cfg)[a..b]
  {
    forall k | 0 <= k < b - a
      ensures ClassifyAll(lines[a..b], cfg)[k] == ClassifyAll(lines, cfg)[a..b][k]
    {
      ClassifyAllIndex(lines[a..b], cfg, k);
      ClassifyAllIndex(lines, cfg, a + k);
    }
  }

  /** The lines of a sequence of classified lines. */
  function Texts(infos: seq<LineInfo>): (r: seq<string>)
    ensures |r| == |infos|
  {
    seq(|infos|, k requires 0 <= k < |infos| => infos[k].text)
  }

  lemma TextsClassifyAll(lines: seq<string>, cfg: AdFilterConfig)
    ensures Texts(ClassifyAll(lines, cfg)) == lines
  {
    forall k | 0 <= k < |lines|
      ensures Texts(ClassifyAll(lines, cfg))[k] == lines[k]
    {
      ClassifyAllIndex(lines, cfg, k);
    }
  }

  lemma TextsConcat(a: seq<LineInfo>, b: seq<LineInfo>)
    ensures Texts(a + b) == Texts(a) + Texts(b)
  {
  }

  lemma TextsSlice(infos: seq<LineInfo>, a: nat, b: nat)
    requires a <= b <= |infos|
    ensures Texts(infos[a..b]) == Texts(infos)[a..b]
  {
  }

  /** The sum of the `#EXTINF` durations of a block. */
  function BlockDuration(block: seq<LineInfo>): Num
    decreases |block|
  {
    if |block| == 0 then Finite(0.0)
    else BlockDuration(block[..|block| - 1]).Plus(block[|block| - 1].duration)
  }

  lemma BlockDurationSnoc(block: seq<LineInfo>, info: LineInfo)
    ensures BlockDuration(block + [info]) == BlockDuration(block).Plus(info.duration)
  {
    assert (block + [info])[..|block|] == block;
  }

  /** Durations add up over concatenated blocks. */
  lemma {:induction false} BlockDurationAppend(a: seq<LineInfo>, b: seq<LineInfo>)
    ensures BlockDuration(a + b) == BlockDuration(a).Plus(BlockDuration(b))
    decreases |b|
  {
    if |b| == 0 {
      assert a + b == a;
      match BlockDuration(a)
      case Finite(_) =>
      case NaN =>
    } else {
      var b' := b[..|b| - 1];
      assert (a + b)[..|a + b| - 1] == a + b';
      BlockDurationAppend(a, b');
    }
  }

  /**
    shouldFilterDiscontinuityBlock: in bounds (both inclusive; NaN is never out
    of bounds because both comparisons are false) and some URI is an ad.
   */
  predicate ShouldFilterBlock(block: seq<LineInfo>, duration: Num, cfg: AdFilterConfig) {
    !(duration.Below(cfg.minAdBlockDuration) || duration.Above(cfg.maxAdBlockDuration))
    && exists k :: 0 <= k < |block| && block[k].ad
  }

  /** The early-return search loop of shouldFilterDiscontinuityBlock. */
  method ShouldFilterDiscontinuityBlock(lines: seq<string>, duration: Num, cfg: AdFilterConfig)
    returns (drop: bool)
    ensures drop <==> ShouldFilterBlock(ClassifyAll(lines, cfg), duration, cfg)
  {
    if duration.Below(cfg.minAdBlockDuration) || duration.Above(cfg.maxAdBlockDuration) {
      return false;
    }
    for k := 0 to |lines|
      invariant forall j :: 0 <= j < k ==> !IsAdUriLine(lines[j], cfg)
    {
      var trimmed := Trim(lines[k]);
      if !StartsWith(trimmed, "#") && |trimmed| > 0 {
        if cfg.isAdUrl(trimmed) {
          ClassifyAllIndex(lines, cfg, k);
          return true;
        }
      }
    }
    forall j | 0 <= j < |lines|
      ensures !ClassifyAll(lines, cfg)[j].ad
    {
      ClassifyAllIndex(lines, cfg, j);
    }
    return false;
  }

  // ---------------------------------------------------------------------------
  // The transform, stated structurally
  // ---------------------------------------------------------------------------

  /** The first marker at or after `from`, or `|infos|` when there is none. */
  function NextMarker(infos: seq<LineInfo>, from: nat): (j: nat)
    requires from <= |infos|
    ensures from <= j <= |infos|
    ensures j < |infos| ==> infos[j].marker
    ensures forall t :: from <= t < j ==> !infos[t].marker
    decreases |infos| - from
  {
    if from == |infos| || infos[from].marker then from else NextMarker(infos, from + 1)
  }

  /**
    Per-URI filtering of one more line before the first marker: an ad URI is
    dropped together with an `#EXTINF` line kept just before it.
   */
  function UriStep(acc: seq<string>, info: LineInfo): seq<string> {
    if info.ad then
      if |acc| > 0 && IsExtinf(acc[|acc| - 1]) then acc[..|acc| - 1] else acc
    else acc + [info.text]
  }

  /** The lines before the first marker, filtered one URI at a time. */
  function UriFilter(infos: seq<LineInfo>): seq<string>
    decreases |infos|
  {
    if |infos| == 0 then [] else UriStep(UriFilter(infos[..|infos| - 1]), infos[|infos| - 1])
  }

  lemma UriFilterSnoc(infos: seq<LineInfo>, i: nat)
    requires i < |infos|
    ensures UriFilter(infos[..i + 1]) == UriStep(UriFilter(infos[..i]), infos[i])
  {
    assert infos[..i + 1][..i] == infos[..i];
  }

  /** A closed block is emitted unchanged, or not at all. */
  function Emit(block: seq<LineInfo>, cfg: AdFilterConfig): seq<string> {
    if ShouldFilterBlock(block, BlockDuration(block), cfg) then [] else Texts(block)
  }

  /**
    The output of the blocks from the marker at `start` on. A block ends at the
    next marker. The last block is emitted only when it holds more than its
    marker line, that is when the final input line lies inside it; a marker on
    the final line is lost.
   */
  function BlocksFrom(infos: seq<LineInfo>, start: nat, cfg: AdFilterConfig): seq<string>
    requires start < |infos| && infos[start].marker
    decreases |infos| - start
  {
    var next := NextMarker(infos, start + 1);
    if next < |infos| then Emit(infos[start..next], cfg) + BlocksFrom(infos, next, cfg)
    else if |infos| - start > 1 then Emit(infos[start..], cfg)
    else []
  }

  function FilterInfos(infos: seq<LineInfo>, cfg: AdFilterConfig): seq<string> {
    var first := NextMarker(infos, 0);
    if first < |infos| then UriFilter(infos[..first]) + BlocksFrom(infos, first, cfg)
    else UriFilter(infos)
  }

  /** The filtered lines of an enabled filter. */
  function FilterLines(lines: seq<string>, cfg: AdFilterConfig): seq<string> {
    FilterInfos(ClassifyAll(lines, cfg), cfg)
  }

  /** filterAdsFromM3u8 */
  function FilterAdsFromM3u8Spec(content: string, cfg: AdFilterConfig): string {
    if !cfg.enabled then content else Join(FilterLines(Split(content, "\n"), cfg), "\n")
  }

  /** The marker at `i` closes the block opened at `start`. */
  lemma CloseBlock(infos: seq<LineInfo>, start: nat, i: nat, cfg: AdFilterConfig)
    requires start < i < |infos| && infos[start].marker && infos[i].marker
    requires NextMarker(infos, start + 1) >= i
    ensures BlocksFrom(infos, start, cfg) == Emit(infos[start..i], cfg) + BlocksFrom(infos, i, cfg)
  {
    assert NextMarker(infos, start + 1) == i;
  }

  /** The final line lies in the block opened at `start`. */
  lemma FlushLastBlock(infos: seq<LineInfo>, start: nat, cfg: AdFilterConfig)
    requires start < |infos| - 1 && infos[start].marker
    requires !infos[|infos| - 1].marker
    requires NextMarker(infos, start + 1) >= |infos| - 1
    ensures BlocksFrom(infos, start, cfg) == Emit(infos[start..], cfg)
  {
    assert NextMarker(infos, start + 1) == |infos|;
  }

  // ---------------------------------------------------------------------------
  // The transform as the source runs it: one pass over the lines
  // ---------------------------------------------------------------------------

  /** The variables the one pass carries from line to line. */
  datatype PassState = PassState(inBlock: bool, start: nat, blockLines: seq<string>, blockDuration: Num,
                                 result: seq<string>)

  /**
    What the pass has established after `i` lines: before the first marker the
    output is the per-URI filter of the lines so far; inside a block, the
    output so far followed by what the blocks from the open one will yield is
    the whole result `expected`.
   */
  ghost predicate PassInvariant(lines: seq<string>, infos: seq<LineInfo>, cfg: AdFilterConfig, expected: seq<string>,
                                i: nat, st: PassState)
  {
    && |infos| == |lines| && Texts(infos) == lines && i <= |lines|
    && (!st.inBlock ==>
          (NextMarker(infos, 0) >= i && st.result == UriFilter(infos[..i]))
          || (i == |lines| && st.result == expected))
    && (st.inBlock ==>
          && st.start < i && infos[st.start].marker
          && st.blockLines == lines[st.start..i]
          && st.blockDuration == BlockDuration(infos[st.start..i])
          && NextMarker(infos, st.start + 1) >= i
          && st.result + BlocksFrom(infos, st.start, cfg) == expected)
    && (st.inBlock && i == |lines| ==> st.start == |lines| - 1)
  }

  /** One iteration of the loop of filterAdsFromM3u8, on line `i`. */
  ghost function PassStep(lines: seq<string>, cfg: AdFilterConfig, i: nat, st: PassState): PassState
    requires i < |lines|
  {
    var line := lines[i];
    var trimmed := Trim(line);
    if trimmed == Marker then
      var keep := st.inBlock && !ShouldFilterBlock(ClassifyAll(st.blockLines, cfg), st.blockDuration, cfg);
      PassState(true, i, [line], Finite(0.0), if keep then st.result + st.blockLines else st.result)
    else if st.inBlock then
      var block := st.blockLines + [line];
      var duration := st.blockDuration.Plus(LineDuration(trimmed));
      if i == |lines| - 1 then
        var drop := ShouldFilterBlock(ClassifyAll(block, cfg), duration, cfg);
        PassState(false, st.start, block, duration, if drop then st.result else st.result + block)
      else
        PassState(true, st.start, block, duration, st.result)
    else if !StartsWith(trimmed, "#") && |trimmed| > 0 && cfg.isAdUrl(trimmed) then
      var r := st.result;
      PassState(false, st.start, st.blockLines, st.blockDuration,
                if |r| > 0 && StartsWith(Trim(r[|r| - 1]), "#EXTINF:") then r[..|r| - 1] else r)
    else
      PassState(false, st.start, st.blockLines, st.blockDuration, st.result + [line])
  }

  lemma PassStart(lines: seq<string>, cfg: AdFilterConfig)
    ensures PassInvariant(lines, ClassifyAll(lines, cfg), cfg, FilterLines(lines, cfg), 0,
                          PassState(false, 0, [], Finite(0.0), []))
  {
    TextsClassifyAll(lines, cfg);
    assert ClassifyAll(lines, cfg)[..0] == [];
  }

  /** A block of one marker line. */
  lemma OneLineBlock(lines: seq<string>, infos: seq<LineInfo>, i: nat)
    requires i < |lines| && i < |infos| && infos[i].duration == Finite(0.0)
    ensures lines[i..i + 1] == [lines[i]]
    ensures BlockDuration(infos[i..i + 1]) == Finite(0.0)
  {
    assert infos[i..i + 1] == [infos[i]];
    assert [infos[i]][..0] == [];
  }

  /** A marker line outside any block opens the first block. */
  lemma PassOpenFirst(lines: seq<string>, infos: seq<LineInfo>, cfg: AdFilterConfig, expected: seq<string>, i: nat,
                      st: PassState)
    requires i < |lines| && i < |infos| && !st.inBlock
    requires infos[i].marker && infos[i].duration == Finite(0.0)
    requires PassInvariant(lines, infos, cfg, expected, i, st)
    requires expected == FilterInfos(infos, cfg)
    ensures PassInvariant(lines, infos, cfg, expected, i + 1, PassState(true, i, [lines[i]], Finite(0.0), st.result))
  {
    assert NextMarker(infos, 0) == i;
    OneLineBlock(lines, infos, i);
  }

  /** A marker line inside a block closes it and opens the next one. */
  lemma PassCloseBlock(lines: seq<string>, infos: seq<LineInfo>, cfg: AdFilterConfig, expected: seq<string>, i: nat,
                       st: PassState, drop: bool)
    requires i < |lines| && i < |infos| && st.inBlock
    requires infos[i].marker && infos[i].duration == Finite(0.0)
    requires PassInvariant(lines, infos, cfg, expected, i, st)
    requires drop == ShouldFilterBlock(infos[st.start..i], st.blockDuration, cfg)
    ensures PassInvariant(lines, infos, cfg, expected, i + 1,
                          PassState(true, i, [lines[i]], Finite(0.0),
                                    if drop then st.result else st.result + st.blockLines))
  {
    CloseBlock(infos, st.start, i, cfg);
    OneLineBlock(lines, infos, i);
    TextsSlice(infos, st.start, i);
    var emitted := Emit(infos[st.start..i], cfg);
    assert emitted == if drop then [] else st.blockLines;
    var r' := if drop then st.result else st.result + st.blockLines;
    assert r' == st.result + emitted;
    AppendAssoc(st.result, emitted, BlocksFrom(infos, i, cfg));
  }

  /** Any other line inside a block, not the final line, joins the block. */
  lemma PassExtendBlock(lines: seq<string>, infos: seq<LineInfo>, cfg: AdFilterConfig, expected: seq<string>, i: nat,
                        st: PassState)
    requires i + 1 < |lines| && i < |infos| && st.inBlock && !infos[i].marker
    requires PassInvariant(lines, infos, cfg, expected, i, st)
    ensures PassInvariant(lines, infos, cfg, expected, i + 1,
                          PassState(true, st.start, st.blockLines + [lines[i]],
                                    st.blockDuration.Plus(infos[i].duration), st.result))
  {
    SliceSnoc(lines, st.start, i);
    SliceSnoc(infos, st.start, i);
    BlockDurationSnoc(infos[st.start..i], infos[i]);
  }

  /** The final line, inside a block, joins it and the block is flushed. */
  lemma PassFlush(lines: seq<string>, infos: seq<LineInfo>, cfg: AdFilterConfig, expected: seq<string>, i: nat,
                  st: PassState, drop: bool)
    requires i + 1 == |lines| && i < |infos| && st.inBlock && !infos[i].marker
    requires PassInvariant(lines, infos, cfg, expected, i, st)
    requires drop == ShouldFilterBlock(infos[st.start..i + 1], st.blockDuration.Plus(infos[i].duration), cfg)
    ensures PassInvariant(lines, infos, cfg, expected, i + 1,
                          PassState(false, st.start, st.blockLines + [lines[i]],
                                    st.blockDuration.Plus(infos[i].duration),
                                    if drop then st.result else st.result + (st.blockLines + [lines[i]])))
  {
    SliceSnoc(lines, st.start, i);
    SliceSnoc(infos, st.start, i);
    BlockDurationSnoc(infos[st.start..i], infos[i]);
    FlushLastBlock(infos, st.start, cfg);
    assert infos[st.start..] == infos[st.start..i + 1];
    TextsSlice(infos, st.start, i + 1);
    var block := st.blockLines + [lines[i]];
    assert Emit(infos[st.start..], cfg) == if drop then [] else block;
    assert st.result + [] == st.result;
  }

  /** Any other line before the first marker goes through the per-URI filter. */
  lemma PassUri(lines: seq<string>, infos: seq<LineInfo>, cfg: AdFilterConfig, expected: seq<string>, i: nat,
                st: PassState)
    requires i < |lines| && i < |infos| && !infos[i].marker && !st.inBlock
    requires PassInvariant(lines, infos, cfg, expected, i, st)
    ensures PassInvariant(lines, infos, cfg, expected, i + 1,
                          PassState(false, st.start, st.blockLines, st.blockDuration, UriStep(st.result, infos[i])))
  {
    UriFilterSnoc(infos, i);
  }

  /** Each iteration keeps the invariant. */
  lemma PassStepKeeps(lines: seq<string>, infos: seq<LineInfo>, cfg: AdFilterConfig, expected: seq<string>, i: nat,
                      st: PassState)
    requires i < |lines| && infos == ClassifyAll(lines, cfg) && expected == FilterInfos(infos, cfg)
    requires PassInvariant(lines, infos, cfg, expected, i, st)
    ensures PassInvariant(lines, infos, cfg, expected, i + 1, PassStep(lines, cfg, i, st))
  {
    ClassifyAllIndex(lines, cfg, i);
    var next := PassStep(lines, cfg, i, st);
    var trimmed := Trim(lines[i]);
    if trimmed == Marker {
      if st.inBlock {
        ClassifyAllSlice(lines, cfg, st.start, i);
        var drop := ShouldFilterBlock(infos[st.start..i], st.blockDuration, cfg);
        PassCloseBlock(lines, infos, cfg, expected, i, st, drop);
      } else {
        PassOpenFirst(lines, infos, cfg, expected, i, st);
      }
    } else if st.inBlock {
      if i == |lines| - 1 {
        SliceSnoc(lines, st.start, i);
        ClassifyAllSlice(lines, cfg, st.start, i + 1);
        var drop := ShouldFilterBlock(infos[st.start..i + 1], st.blockDuration.Plus(infos[i].duration), cfg);
        PassFlush(lines, infos, cfg, expected, i, st, drop);
      } else {
        PassExtendBlock(lines, infos, cfg, expected, i, st);
      }
    } else {
      PassUri(lines, infos, cfg, expected, i, st);
    }
  }

  lemma PassEnd(lines: seq<string>, infos: seq<LineInfo>, cfg: AdFilterConfig, expected: seq<string>, st: PassState)
    requires PassInvariant(lines, infos, cfg, expected, |lines|, st)
    requires expected == FilterInfos(infos, cfg)
    ensures st.result == expected
  {
    if st.inBlock {
      assert NextMarker(infos, st.start + 1) == |infos|;
      assert st.result + [] == st.result;
    } else {
      assert infos[..|infos|] == infos;
    }
  }

  /** The state of the one pass after its first `k` iterations. */
  ghost function RunTo(lines: seq<string>, cfg: AdFilterConfig, k: nat): PassState
    requires k <= |lines|
    decreases k
  {
    if k == 0 then PassState(false, 0, [], Finite(0.0), [])
    else PassStep(lines, cfg, k - 1, RunTo(lines, cfg, k - 1))
  }

  lemma {:induction false} RunToKeeps(lines: seq<string>, cfg: AdFilterConfig, k: nat)
    requires k <= |lines|
    ensures PassInvariant(lines, ClassifyAll(lines, cfg), cfg, FilterLines(lines, cfg), k, RunTo(lines, cfg, k))
  {
    if k == 0 {
      PassStart(lines, cfg);
    } else {
      RunToKeeps(lines, cfg, k - 1);
      PassStepKeeps(lines, ClassifyAll(lines, cfg), cfg, FilterLines(lines, cfg), k - 1, RunTo(lines, cfg, k - 1));
    }
  }

  /** After the last line, the pass has produced the filtered lines. */
  lemma RunToResult(lines: seq<string>, cfg: AdFilterConfig)
    ensures RunTo(lines, cfg, |lines|).result == FilterLines(lines, cfg)
  {
    RunToKeeps(lines, cfg, |lines|);
    PassEnd(lines, ClassifyAll(lines, cfg), cfg, FilterLines(lines, cfg), RunTo(lines, cfg, |lines|));
  }

  /** The duration the source adds for one trimmed line inside a block. */
  method ExtinfIncrement(trimmed: string) returns (d: Num)
    ensures d == LineDuration(trimmed)
  {
    d := Finite(0.0);
    if StartsWith(trimmed, "#EXTINF:") {
      var m := ExtinfNumber(trimmed);
      if m.Some? {
        d := ParseFloat(m.value);
      }
    }
  }

  method FilterAdsFromM3u8(content: string, cfg: AdFilterConfig) returns (out: string)
    ensures out == FilterAdsFromM3u8Spec(content, cfg)
    ensures !cfg.enabled ==> out == content
  {
    if !cfg.enabled {
      return content;
    }
    var lines := Split(content, "\n");
    var n := |lines|;
    var result: seq<string> := [];
    var inBlock := false;
    var blockLines: seq<string> := [];
    var blockDuration := Finite(0.0);
    ghost var st := PassState(false, 0, [], Finite(0.0), []);

    var i: nat := 0;
    while i < n
      invariant i <= n && st == RunTo(lines, cfg, i)
      invariant st.inBlock == inBlock && st.blockLines == blockLines
      invariant st.blockDuration == blockDuration && st.result == result
    {
      ghost var next := PassStep(lines, cfg, i, st);
      var line := lines[i];
      var trimmed := Trim(line);

      if trimmed == Marker {
        if inBlock {
          var drop := ShouldFilterDiscontinuityBlock(blockLines, blockDuration, cfg);
          if !drop {
            result := result + blockLines;
          }
        }
        inBlock := true;
        blockLines := [line];
        blockDuration := Finite(0.0);
      } else if inBlock {
        blockLines := blockLines + [line];
        var increment := ExtinfIncrement(trimmed);
        blockDuration := blockDuration.Plus(increment);
        if i == n - 1 {
          var drop := ShouldFilterDiscontinuityBlock(blockLines, blockDuration, cfg);
          if !drop {
            result := result + blockLines;
          }
          inBlock := false;
        }
      } else if !StartsWith(trimmed, "#") && |trimmed| > 0 && cfg.isAdUrl(trimmed) {
        if |result| > 0 && StartsWith(Trim(result[|result| - 1]), "#EXTINF:") {
          result := result[..|result| - 1];
        }
      } else {
        result := result + [line];
      }
      st := next;
      i := i + 1;
    }
    RunToResult(lines, cfg);
    return Join(result, "\n");
  }

  // ---------------------------------------------------------------------------
  // Properties
  // ---------------------------------------------------------------------------

  /** `a` is a subsequence of `b`: every output line is an input line, in order. */
  ghost predicate Subseq(a: seq<string>, b: seq<string>)
    decreases |b|
  {
    |a| == 0
    || (|b| > 0 && ((a[|a| - 1] == b[|b| - 1] && Subseq(a[..|a| - 1], b[..|b| - 1]))
                   || Subseq(a, b[..|b| - 1])))
  }

  lemma {:induction false} SubseqRefl(a: seq<string>)
    ensures Subseq(a, a)
    decreases |a|
  {
    if |a| > 0 { SubseqRefl(a[..|a| - 1]); }
  }

  lemma SubseqSkip(a: seq<string>, b: seq<string>, x: string)
    requires Subseq(a, b)
    ensures Subseq(a, b + [x])
  {
    assert (b + [x])[..|b|] == b;
  }

  lemma {:induction false} SubseqDropLast(a: seq<string>, b: seq<string>)
    requires Subseq(a, b) && |a| > 0
    ensures Subseq(a[..|a| - 1], b)
    decreases |b|
  {
    var a' := a[..|a| - 1];
    var b' := b[..|b| - 1];
    assert b' + [b[|b| - 1]] == b;
    if a[|a| - 1] == b[|b| - 1] && Subseq(a', b') {
      SubseqSkip(a', b', b[|b| - 1]);
    } else {
      SubseqDropLast(a, b');
      SubseqSkip(a', b', b[|b| - 1]);
    }
  }

  lemma {:induction false} SubseqConcat(a1: seq<string>, b1: seq<string>, a2: seq<string>, b2: seq<string>)
    requires Subseq(a1, b1) && Subseq(a2, b2)
    ensures Subseq(a1 + a2, b1 + b2)
    decreases |b2|
  {
    if |b2| == 0 {
      assert a2 == [];
      assert a1 + a2 == a1 && b1 + b2 == b1;
    } else {
      var b2' := b2[..|b2| - 1];
      var b := b1 + b2;
      assert b[..|b| - 1] == b1 + b2';
      if |a2| > 0 && a2[|a2| - 1] == b2[|b2| - 1] && Subseq(a2[..|a2| - 1], b2') {
        SubseqConcat(a1, b1, a2[..|a2| - 1], b2');
        var a := a1 + a2;
        assert a[..|a| - 1] == a1 + a2[..|a2| - 1];
        assert a[|a| - 1] == b[|b| - 1];
      } else {
        assert Subseq(a2, b2');
        SubseqConcat(a1, b1, a2, b2');
      }
    }
  }

  lemma {:induction false} SubseqLength(a: seq<string>, b: seq<string>)
    requires Subseq(a, b)
    ensures |a| <= |b|
    decreases |b|
  {
    if |a| > 0 {
      if a[|a| - 1] == b[|b| - 1] && Subseq(a[..|a| - 1], b[..|b| - 1]) {
        SubseqLength(a[..|a| - 1], b[..|b| - 1]);
      } else {
        SubseqLength(a, b[..|b| - 1]);
      }
    }
  }

  lemma {:induction false} UriFilterSubseq(infos: seq<LineInfo>)
    ensures Subseq(UriFilter(infos), Texts(infos))
    decreases |infos|
  {
    if |infos| > 0 {
      var init := infos[..|infos| - 1];
      var x := infos[|infos| - 1];
      var acc := UriFilter(init);
      UriFilterSubseq(init);
      assert init + [x] == infos;
      TextsConcat(init, [x]);
      if x.ad {
        if |acc| > 0 && IsExtinf(acc[|acc| - 1]) {
          SubseqDropLast(acc, Texts(init));
          SubseqSkip(acc[..|acc| - 1], Texts(init), x.text);
        } else {
          SubseqSkip(acc, Texts(init), x.text);
        }
      } else {
        SubseqRefl([x.text]);
        SubseqConcat(acc, Texts(init), [x.text], [x.text]);
      }
    }
  }

  lemma {:induction false} BlocksFromSubseq(infos: seq<LineInfo>, start: nat, cfg: AdFilterConfig)
    requires start < |infos| && infos[start].marker
    ensures Subseq(BlocksFrom(infos, start, cfg), Texts(infos[start..]))
    decreases |infos| - start
  {
    var next := NextMarker(infos, start + 1);
    if next < |infos| {
      CloseBlock(infos, start, next, cfg);
      SubseqRefl(Texts(infos[start..next]));
      BlocksFromSubseq(infos, next, cfg);
      SuffixSplit(infos, start, next);
      TextsConcat(infos[start..next], infos[next..]);
      SubseqConcat(Emit(infos[start..next], cfg), Texts(infos[start..next]),
                   BlocksFrom(infos, next, cfg), Texts(infos[next..]));
    } else {
      assert next == |infos|;
      SubseqRefl(Texts(infos[start..]));
    }
  }

  lemma FilterInfosSubseq(infos: seq<LineInfo>, cfg: AdFilterConfig)
    ensures Subseq(FilterInfos(infos, cfg), Texts(infos))
  {
    var first := NextMarker(infos, 0);
    if first < |infos| {
      UriFilterSubseq(infos[..first]);
      BlocksFromSubseq(infos, first, cfg);
      SplitAt(infos, first);
      TextsConcat(infos[..first], infos[first..]);
      SubseqConcat(UriFilter(infos[..first]), Texts(infos[..first]),
                   BlocksFrom(infos, first, cfg), Texts(infos[first..]));
    } else {
      UriFilterSubseq(infos);
    }
  }

  /** Output lines are input lines in their input order: nothing is rewritten or inserted. */
  lemma FilterLinesSubseq(lines: seq<string>, cfg: AdFilterConfig)
    ensures Subseq(FilterLines(lines, cfg), lines)
    ensures |FilterLines(lines, cfg)| <= |lines|
  {
    FilterInfosSubseq(ClassifyAll(lines, cfg), cfg);
    TextsClassifyAll(lines, cfg);
    SubseqLength(FilterLines(lines, cfg), lines);
  }

  /** Every line the per-URI filter keeps is the text of a non-ad line. */
  lemma {:induction false} UriFilterKeepsNonAds(infos: seq<LineInfo>, k: nat)
    requires k < |UriFilter(infos)|
    ensures exists j :: 0 <= j < |infos| && infos[j].text == UriFilter(infos)[k] && !infos[j].ad
    decreases |infos|
  {
    var init := infos[..|infos| - 1];
    var acc := UriFilter(init);
    if k < |acc| {
      UriFilterKeepsNonAds(init, k);
      var j :| 0 <= j < |init| && init[j].text == acc[k] && !init[j].ad;
      assert infos[j] == init[j];
    } else {
      assert infos[|infos| - 1].text == UriFilter(infos)[k];
    }
  }

  /** No ad URI survives before the first marker: the prefix filter keeps none. */
  lemma UriFilterDropsAds(lines: seq<string>, cfg: AdFilterConfig, k: nat)
    requires k < |UriFilter(ClassifyAll(lines, cfg))|
    ensures !IsAdUriLine(UriFilter(ClassifyAll(lines, cfg))[k], cfg)
  {
    var infos := ClassifyAll(lines, cfg);
    UriFilterKeepsNonAds(infos, k);
    var j :| 0 <= j < |infos| && infos[j].text == UriFilter(infos)[k] && !infos[j].ad;
    ClassifyAllIndex(lines, cfg, j);
  }

  /** Without ad URIs the per-URI filter changes nothing. */
  lemma {:induction false} UriFilterNoAds(infos: seq<LineInfo>)
    requires forall j :: 0 <= j < |infos| ==> !infos[j].ad
    ensures UriFilter(infos) == Texts(infos)
    decreases |infos|
  {
    if |infos| > 0 {
      var init := infos[..|infos| - 1];
      UriFilterNoAds(init);
      assert init + [infos[|infos| - 1]] == infos;
      TextsConcat(init, [infos[|infos| - 1]]);
    }
  }

  /** Without ad URIs every block is kept; only a marker on the final line is lost. */
  lemma {:induction false} BlocksFromNoAds(infos: seq<LineInfo>, start: nat, cfg: AdFilterConfig)
    requires start < |infos| && infos[start].marker
    requires forall j :: 0 <= j < |infos| ==> !infos[j].ad
    requires !infos[|infos| - 1].marker
    ensures BlocksFrom(infos, start, cfg) == Texts(infos[start..])
    decreases |infos| - start
  {
    var next := NextMarker(infos, start + 1);
    if next < |infos| {
      CloseBlock(infos, start, next, cfg);
      assert !ShouldFilterBlock(infos[start..next], BlockDuration(infos[start..next]), cfg);
      BlocksFromNoAds(infos, next, cfg);
      SuffixSplit(infos, start, next);
      TextsConcat(infos[start..next], infos[next..]);
    } else {
      assert next == |infos|;
      assert start != |infos| - 1;
      assert !ShouldFilterBlock(infos[start..], BlockDuration(infos[start..]), cfg);
    }
  }

  /**
    A playlist with no ad URI comes out unchanged, unless its final line is a
    marker (that marker line is dropped).
   */
  lemma FilterLinesNoAds(lines: seq<string>, cfg: AdFilterConfig)
    requires forall j :: 0 <= j < |lines| ==> !IsAdUriLine(lines[j], cfg)
    requires |lines| > 0 ==> !IsMarker(lines[|lines| - 1])
    ensures FilterLines(lines, cfg) == lines
  {
    var infos := ClassifyAll(lines, cfg);
    forall j | 0 <= j < |infos| ensures !infos[j].ad {
      ClassifyAllIndex(lines, cfg, j);
    }
    if |lines| > 0 {
      ClassifyAllIndex(lines, cfg, |lines| - 1);
    }
    TextsClassifyAll(lines, cfg);
    var first := NextMarker(infos, 0);
    if first < |infos| {
      UriFilterNoAds(infos[..first]);
      BlocksFromNoAds(infos, first, cfg);
      SplitAt(infos, first);
      TextsConcat(infos[..first], infos[first..]);
    } else {
      UriFilterNoAds(infos);
    }
  }

  /**
    A closed block (another marker follows it) is dropped exactly when its
    duration is within bounds and one of its URIs is an ad; otherwise its lines
    come out as they are, followed by the output of the next block.
   */
  lemma ClosedBlock(infos: seq<LineInfo>, start: nat, cfg: AdFilterConfig)
    requires start < |infos| && infos[start].marker
    requires NextMarker(infos, start + 1) < |infos|
    ensures var next := NextMarker(infos, start + 1);
      var block := infos[start..next];
      var rest := BlocksFrom(infos, next, cfg);
      && (ShouldFilterBlock(block, BlockDuration(block), cfg) ==> BlocksFrom(infos, start, cfg) == rest)
      && (!ShouldFilterBlock(block, BlockDuration(block), cfg) ==> BlocksFrom(infos, start, cfg) == Texts(block) + rest)
  {
    assert [] + BlocksFrom(infos, NextMarker(infos, start + 1), cfg) == BlocksFrom(infos, NextMarker(infos, start + 1), cfg);
  }

  /** When the only marker is the final line, the output is the per-URI filter of the rest. */
  lemma TrailingMarkerLost(lines: seq<string>, cfg: AdFilterConfig)
    requires |lines| > 0 && IsMarker(lines[|lines| - 1])
    requires forall j :: 0 <= j < |lines| - 1 ==> !IsMarker(lines[j])
    ensures FilterLines(lines, cfg) == UriFilter(ClassifyAll(lines[..|lines| - 1], cfg))
  {
    var infos := ClassifyAll(lines, cfg);
    forall j | 0 <= j < |lines| - 1 ensures !infos[j].marker {
      ClassifyAllIndex(lines, cfg, j);
    }
    ClassifyAllIndex(lines, cfg, |lines| - 1);
    assert NextMarker(infos, 0) == |lines| - 1;
    ClassifyAllSlice(lines, cfg, 0, |lines| - 1);
    assert lines[0..|lines| - 1] == lines[..|lines| - 1];
    assert infos[0..|lines| - 1] == infos[..|lines| - 1];
    assert BlocksFrom(infos, |lines| - 1, cfg) == [];
  }

  // ---------------------------------------------------------------------------
  // The loader hook
  // ---------------------------------------------------------------------------

  /** The condition under which the loader wrapper filters a response body. */
  predicate IsPlaylistResponse(dataIsString: bool, url: Option<string>, data: string) {
    dataIsString && ((url.Some? && Contains(url.value, ".m3u8")) || Contains(data, "#EXTM3U"))
  }

  /** What the wrapped loader hands on: the filtered body for playlists, otherwise the body as is. */
  function LoaderBody(dataIsString: bool, url: Option<string>, data: string): (body: string)
    ensures !IsPlaylistResponse(dataIsString, url, data) ==> body == data
    ensures IsPlaylistResponse(dataIsString, url, data) ==> body == FilterAdsFromM3u8Spec(data, DefaultConfig)
  {
    if IsPlaylistResponse(dataIsString, url, data) then FilterAdsFromM3u8Spec(data, DefaultConfig) else data
  }
}

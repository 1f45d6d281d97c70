/**
  Matching a Douban title against every configured video source
  (`POST /api/douban/match-vod`): the per-source selection chain, the
  confidence of a match, the ordering of the matches and the response.

  The search request sent to each source is an input: one outcome per
  source, in the order of the source list.
 */
module MatchVod {
  import opened Strings
  import opened VodTypes
  import TitleUtils

  // ---------------------------------------------------------------------------
  // Items and the selection chain
  // ---------------------------------------------------------------------------

  /** A `year` field is a string or a number. */
  datatype YearValue = YearText(text: string) | YearNumber(n: int)

  /** `year.toString()` */
  function YearString(y: YearValue): string {
    match y
    case YearText(t) => t
    case YearNumber(n) => IntToString(n)
  }

  /** JavaScript truthiness of an optional year: absent, `''` and `0` are falsy. */
  predicate YearTruthy(y: Option<YearValue>) {
    match y
    case None => false
    case Some(YearText(t)) => t != ""
    case Some(YearNumber(n)) => n != 0
  }

  datatype VodItem = VodItem(id: string, name: string, year: Option<YearValue>)

  /**
    A prefix of a string's UTF-16 code units: whole characters, then
    possibly the high surrogate of a character the cut falls inside.
   */
  datatype UnitSlice = UnitSlice(chars: string, highHalf: Option<int>)

  function Width(c: char): nat {
    if c as int > 0xFFFF then 2 else 1
  }

  /** `substring(0, n)`, which counts UTF-16 code units. */
  function Substring0(s: string, n: nat): (p: UnitSlice)
    ensures StartsWith(s, p.chars)
    ensures TitleUtils.Utf16Len(p.chars) + (if p.highHalf.Some? then 1 else 0)
            == if n <= TitleUtils.Utf16Len(s) then n else TitleUtils.Utf16Len(s)
    ensures p.highHalf.Some? ==>
              |p.chars| < |s| && s[|p.chars|] as int > 0xFFFF && p.highHalf.value == TitleUtils.CharCodeAt0(s[|p.chars|])
  {
    if |s| == 0 || n == 0 then UnitSlice("", None)
    else if Width(s[0]) > n then UnitSlice("", Some(TitleUtils.CharCodeAt0(s[0])))
    else
      var rest := Substring0(s[1..], n - Width(s[0]));
      assert ([s[0]] + rest.chars)[1..] == rest.chars;
      UnitSlice([s[0]] + rest.chars, rest.highHalf)
  }

  /**
    `s.includes(p)` for such a prefix: its whole characters occur in `s`,
    and a cut-off high surrogate must be the first half of the character
    that follows them.
   */
  predicate IncludesUnits(s: string, p: UnitSlice) {
    match p.highHalf
    case None => Contains(s, p.chars)
    case Some(h) =>
      exists i :: 0 <= i < |s| && MatchAt(s, p.chars, i) && i + |p.chars| < |s|
                  && s[i + |p.chars|] as int > 0xFFFF && TitleUtils.CharCodeAt0(s[i + |p.chars|]) == h
  }

  /** Without characters beyond U+FFFF, `substring(0, 3)` is the first three characters. */
  lemma {:induction false} Substring0Bmp(s: string, n: nat)
    requires forall k :: 0 <= k < |s| ==> s[k] as int <= 0xFFFF
    ensures Substring0(s, n) == UnitSlice(if |s| <= n then s else s[..n], None)
    decreases n
  {
    if |s| == 0 || n == 0 {
    } else {
      Substring0Bmp(s[1..], n - 1);
      if |s| <= n {
        assert [s[0]] + s[1..] == s;
      } else {
        assert [s[0]] + s[1..][..n - 1] == s[..n];
      }
    }
  }

  /**
    A character beyond U+FFFF takes two of the three units: "𠀀ab" gives
    "𠀀a", and "ab𠀀" gives "ab" followed by the lone high surrogate 0xD840.
   */
  lemma AstralPrefixes()
    ensures Substring0("\U{20000}ab", 3) == UnitSlice("\U{20000}a", None)
    ensures Substring0("ab\U{20000}", 3) == UnitSlice("ab", Some(0xD840))
  {
    assert "\U{20000}ab"[1..] == "ab";
    assert "ab"[1..] == "b";
    assert "ab\U{20000}"[1..] == "b\U{20000}";
    assert "b\U{20000}"[1..] == "\U{20000}";
    assert ['b'] + "" == "b";
    assert ['a'] + "b" == "ab";
  }

  predicate ExactName(v: VodItem, title: string) {
    v.name == title
  }

  /** One name contains the other. */
  predicate NameOverlap(v: VodItem, title: string) {
    Contains(v.name, title) || Contains(title, v.name)
  }

  /** The third rule: the three-unit prefixes overlap and the years are equal as strings. */
  predicate YearMatch(v: VodItem, title: string, year: YearValue) {
    (IncludesUnits(v.name, Substring0(title, 3)) || IncludesUnits(title, Substring0(v.name, 3)))
    && YearTruthy(v.year) && YearString(v.year.value) == YearString(year)
  }

  /** The three `find` rules of the chain. */
  datatype Rule = Exact | Overlap | ByYear(year: YearValue)

  predicate Holds(rule: Rule, v: VodItem, title: string) {
    match rule
    case Exact => ExactName(v, title)
    case Overlap => NameOverlap(v, title)
    case ByYear(y) => YearMatch(v, title, y)
  }

  /** `list.find(...)` with one rule, as an index. */
  function Find(list: seq<VodItem>, rule: Rule, title: string): (r: Option<nat>)
    ensures r.Some? ==> FirstWith(list, r.value, rule, title)
    ensures r.None? ==> forall k :: 0 <= k < |list| ==> !Holds(rule, list[k], title)
  {
    if |list| == 0 then None
    else if Holds(rule, list[0], title) then Some(0)
    else match Find(list[1..], rule, title)
      case Some(i) =>
        assert forall k :: 1 <= k <= i ==> list[k] == list[1..][k - 1];
        Some(i + 1)
      case None =>
        assert forall k :: 1 <= k < |list| ==> list[k] == list[1..][k - 1];
        None
  }

  /** `i` is the first index of `list` where `rule` holds. */
  predicate FirstWith(list: seq<VodItem>, i: nat, rule: Rule, title: string) {
    i < |list| && Holds(rule, list[i], title) && forall k :: 0 <= k < i ==> !Holds(rule, list[k], title)
  }

  predicate AnyWith(list: seq<VodItem>, rule: Rule, title: string) {
    exists i :: 0 <= i < |list| && Holds(rule, list[i], title)
  }

  /**
    The selection chain of matchSingleSource: the first exact name, else the
    first overlapping name, else (when a year is given) the first prefix and
    year match, else the first item; nothing for an empty list.
   */
  function Select(list: seq<VodItem>, title: string, year: Option<YearValue>): Option<VodItem> {
    match Find(list, Exact, title)
    case Some(i) => Some(list[i])
    case None =>
      match Find(list, Overlap, title)
      case Some(i) => Some(list[i])
      case None =>
        var byYear := if YearTruthy(year) then Find(list, ByYear(year.value), title) else None;
        match byYear
        case Some(i) => Some(list[i])
        case None => if |list| > 0 then Some(list[0]) else None
  }

  /** The selected item is one of the list's, and there is one unless the list is empty. */
  lemma SelectMember(list: seq<VodItem>, title: string, year: Option<YearValue>)
    ensures Select(list, title, year).Some? ==> Select(list, title, year).value in list
    ensures Select(list, title, year).None? <==> list == []
  {
  }

  /** The first rule that holds for some item picks the first item it holds for. */
  lemma SelectChain(list: seq<VodItem>, title: string, year: Option<YearValue>)
    ensures var r := Select(list, title, year);
            && (AnyWith(list, Exact, title) ==> exists i: nat :: FirstWith(list, i, Exact, title) && r == Some(list[i]))
            && (!AnyWith(list, Exact, title) && AnyWith(list, Overlap, title) ==>
                  exists i: nat :: FirstWith(list, i, Overlap, title) && r == Some(list[i]))
            && (!AnyWith(list, Exact, title) && !AnyWith(list, Overlap, title) && YearTruthy(year) && AnyWith(list, ByYear(year.value), title) ==>
                  exists i: nat :: FirstWith(list, i, ByYear(year.value), title) && r == Some(list[i]))
            && ((!AnyWith(list, Exact, title) && !AnyWith(list, Overlap, title) && list != []
                 && (YearTruthy(year) ==> !AnyWith(list, ByYear(year.value), title)))
                ==> r == Some(list[0]))
  {
    var e := Find(list, Exact, title);
    var o := Find(list, Overlap, title);
    if e.Some? {
      assert Holds(Exact, list[e.value], title);
    } else if o.Some? {
      assert Holds(Overlap, list[o.value], title);
    } else if YearTruthy(year) {
      var y := Find(list, ByYear(year.value), title);
      if y.Some? {
        assert Holds(ByYear(year.value), list[y.value], title);
      }
    }
  }

  /** The reply of one source's search request. */
  datatype SearchOutcome =
    | SearchThrew
    | SearchReply(code: int, list: Option<seq<VodItem>>)

  /** matchSingleSource: a failed request, a non-200 code or a missing list gives nothing. */
  function MatchSingleSource(outcome: SearchOutcome, title: string, year: Option<YearValue>): (r: Option<VodItem>)
    ensures r.Some? <==> outcome.SearchReply? && outcome.code == 200 && outcome.list.Some? && outcome.list.value != []
    ensures r.Some? ==> r.value in outcome.list.value
  {
    match outcome
    case SearchThrew => None
    case SearchReply(code, list) =>
      if code != 200 || list.None? then None else Select(list.value, title, year)
  }

  // ---------------------------------------------------------------------------
  // Confidence and ordering
  // ---------------------------------------------------------------------------

  datatype Confidence = High | Medium | Low

  /** getMatchConfidence */
  function MatchConfidence(vodName: string, title: string): (c: Confidence)
    ensures c == High <==> vodName == title
    ensures c == Medium <==> vodName != title && (Contains(vodName, title) || Contains(title, vodName))
    ensures c == Low <==> !Contains(vodName, title) && !Contains(title, vodName)
  {
    ContainsSelf(title);
    if vodName == title then High
    else if Contains(vodName, title) || Contains(title, vodName) then Medium
    else Low
  }

  /** An item picked by the exact-name rule is a high match; one picked by the overlap rule, medium. */
  lemma SelectedConfidence(list: seq<VodItem>, title: string, year: Option<YearValue>)
    requires Select(list, title, year).Some?
    ensures var v := Select(list, title, year).value;
            && (AnyWith(list, Exact, title) ==> MatchConfidence(v.name, title) == High)
            && (!AnyWith(list, Exact, title) && AnyWith(list, Overlap, title) ==> MatchConfidence(v.name, title) == Medium)
  {
    SelectChain(list, title, year);
  }

  /** `confidenceOrder` */
  function Rank(c: Confidence): int {
    match c
    case High => 3
    case Medium => 2
    case Low => 1
  }

  datatype MatchResult = MatchResult(
    sourceKey: string,
    sourceName: string,
    vodId: string,
    vodName: string,
    confidence: Confidence,
    vodData: VodItem)

  function ToMatch(source: VodSource, item: VodItem, title: string): MatchResult {
    MatchResult(source.key, source.name, item.id, item.name, MatchConfidence(item.name, title), item)
  }

  /** `results.filter(r => r !== null)` over the per-source matches, in source order. */
  function Successful(sources: seq<VodSource>, outcomes: seq<SearchOutcome>, title: string, year: Option<YearValue>): (r: seq<MatchResult>)
    requires |outcomes| == |sources|
    ensures |r| <= |sources|
  {
    if |sources| == 0 then []
    else
      var rest := Successful(sources[1..], outcomes[1..], title, year);
      match MatchSingleSource(outcomes[0], title, year)
      case Some(item) => [ToMatch(sources[0], item, title)] + rest
      case None => rest
  }

  lemma {:induction false} SuccessfulConcat(s1: seq<VodSource>, o1: seq<SearchOutcome>, s2: seq<VodSource>, o2: seq<SearchOutcome>,
                                           title: string, year: Option<YearValue>)
    requires |o1| == |s1| && |o2| == |s2|
    ensures Successful(s1 + s2, o1 + o2, title, year) == Successful(s1, o1, title, year) + Successful(s2, o2, title, year)
    decreases |s1|
  {
    if |s1| == 0 {
      assert s1 + s2 == s2 && o1 + o2 == o2;
    } else {
      assert (s1 + s2)[1..] == s1[1..] + s2 && (o1 + o2)[1..] == o1[1..] + o2;
      assert (s1 + s2)[0] == s1[0] && (o1 + o2)[0] == o1[0];
      SuccessfulConcat(s1[1..], o1[1..], s2, o2, title, year);
    }
  }

  /** A source whose search fails, or is not answered with code 200 and a non-empty list, contributes no match. */
  lemma FailedSourceContributesNothing(sources: seq<VodSource>, outcomes: seq<SearchOutcome>, i: nat, title: string, year: Option<YearValue>)
    requires |outcomes| == |sources| && i < |sources|
    requires MatchSingleSource(outcomes[i], title, year).None?
    ensures Successful(sources, outcomes, title, year)
            == Successful(sources[..i] + sources[i + 1..], outcomes[..i] + outcomes[i + 1..], title, year)
  {
    assert sources == sources[..i] + ([sources[i]] + sources[i + 1..]);
    assert outcomes == outcomes[..i] + ([outcomes[i]] + outcomes[i + 1..]);
    SuccessfulConcat(sources[..i], outcomes[..i], [sources[i]] + sources[i + 1..], [outcomes[i]] + outcomes[i + 1..], title, year);
    SuccessfulConcat([sources[i]], [outcomes[i]], sources[i + 1..], outcomes[i + 1..], title, year);
    SuccessfulConcat(sources[..i], outcomes[..i], sources[i + 1..], outcomes[i + 1..], title, year);
    assert Successful([sources[i]], [outcomes[i]], title, year) == [];
  }

  /** Every match names a source that answered with code 200, and an item of that source's list. */
  lemma {:induction false} MatchesComeFromAnswers(sources: seq<VodSource>, outcomes: seq<SearchOutcome>, title: string, year: Option<YearValue>)
    requires |outcomes| == |sources|
    ensures forall m :: m in Successful(sources, outcomes, title, year) ==>
              exists i :: 0 <= i < |sources| && m.sourceKey == sources[i].key && outcomes[i].SearchReply?
                          && outcomes[i].code == 200 && outcomes[i].list.Some? && m.vodData in outcomes[i].list.value
                          && m.confidence == MatchConfidence(m.vodName, title)
    decreases |sources|
  {
    if |sources| > 0 {
      MatchesComeFromAnswers(sources[1..], outcomes[1..], title, year);
      forall m | m in Successful(sources, outcomes, title, year)
        ensures exists i :: 0 <= i < |sources| && m.sourceKey == sources[i].key && outcomes[i].SearchReply?
                            && outcomes[i].code == 200 && outcomes[i].list.Some? && m.vodData in outcomes[i].list.value
                            && m.confidence == MatchConfidence(m.vodName, title)
      {
        if m !in Successful(sources[1..], outcomes[1..], title, year) {
          assert 0 < |sources|;
        } else {
          var i :| 0 <= i < |sources[1..]| && m.sourceKey == sources[1..][i].key && outcomes[1..][i].SearchReply?
                   && outcomes[1..][i].code == 200 && outcomes[1..][i].list.Some? && m.vodData in outcomes[1..][i].list.value
                   && m.confidence == MatchConfidence(m.vodName, title);
          assert sources[i + 1] == sources[1..][i] && outcomes[i + 1] == outcomes[1..][i];
        }
      }
    }
  }

  function OfConfidence(ms: seq<MatchResult>, c: Confidence): (r: seq<MatchResult>)
    ensures forall k :: 0 <= k < |r| ==> r[k].confidence == c
  {
    if |ms| == 0 then []
    else
      var rest := OfConfidence(ms[1..], c);
      if ms[0].confidence == c then [ms[0]] + rest else rest
  }

  /**
    `successfulMatches.sort((a, b) => rank(b) - rank(a))`. The sort is
    stable, and there are only three ranks, so its result is the high
    matches, then the medium ones, then the low ones, each in input order.
   */
  function SortByConfidence(ms: seq<MatchResult>): seq<MatchResult> {
    OfConfidence(ms, High) + OfConfidence(ms, Medium) + OfConfidence(ms, Low)
  }

  predicate RankedDescending(ms: seq<MatchResult>) {
    forall i, j :: 0 <= i < j < |ms| ==> Rank(ms[i].confidence) >= Rank(ms[j].confidence)
  }

  /** The sorted matches run from high to low. */
  lemma SortedRanked(ms: seq<MatchResult>)
    ensures RankedDescending(SortByConfidence(ms))
  {
    var h, m, l := OfConfidence(ms, High), OfConfidence(ms, Medium), OfConfidence(ms, Low);
    var r := SortByConfidence(ms);
    forall i, j | 0 <= i < j < |r| ensures Rank(r[i].confidence) >= Rank(r[j].confidence) {
      if i < |h| {
        assert r[i] == h[i];
      } else if i < |h| + |m| {
        assert r[i] == m[i - |h|];
        assert r[j] == (if j < |h| + |m| then m[j - |h|] else l[j - |h| - |m|]);
      } else {
        assert r[i] == l[i - |h| - |m|] && r[j] == l[j - |h| - |m|];
      }
    }
  }

  lemma {:induction false} SplitByConfidence(ms: seq<MatchResult>)
    ensures multiset(ms) == multiset(OfConfidence(ms, High)) + multiset(OfConfidence(ms, Medium)) + multiset(OfConfidence(ms, Low))
    decreases |ms|
  {
    if |ms| > 0 {
      var x, rest := ms[0], ms[1..];
      SplitByConfidence(rest);
      assert ms == [x] + rest;
      assert multiset(ms) == multiset{x} + multiset(rest);
      var h, m, l := OfConfidence(rest, High), OfConfidence(rest, Medium), OfConfidence(rest, Low);
      match x.confidence
      case High =>
        assert OfConfidence(ms, High) == [x] + h && OfConfidence(ms, Medium) == m && OfConfidence(ms, Low) == l;
        assert multiset([x] + h) == multiset{x} + multiset(h);
      case Medium =>
        assert OfConfidence(ms, High) == h && OfConfidence(ms, Medium) == [x] + m && OfConfidence(ms, Low) == l;
        assert multiset([x] + m) == multiset{x} + multiset(m);
      case Low =>
        assert OfConfidence(ms, High) == h && OfConfidence(ms, Medium) == m && OfConfidence(ms, Low) == [x] + l;
        assert multiset([x] + l) == multiset{x} + multiset(l);
    }
  }

  /** Sorting neither loses nor adds a match. */
  lemma SortedPermutation(ms: seq<MatchResult>)
    ensures multiset(SortByConfidence(ms)) == multiset(ms)
  {
    SplitByConfidence(ms);
  }

  lemma {:induction false} OfConfidenceOther(ms: seq<MatchResult>, c: Confidence, d: Confidence)
    requires c != d
    ensures OfConfidence(OfConfidence(ms, c), d) == []
    decreases |ms|
  {
    if |ms| > 0 {
      OfConfidenceOther(ms[1..], c, d);
    }
  }

  lemma {:induction false} OfConfidenceSame(ms: seq<MatchResult>, c: Confidence)
    ensures OfConfidence(OfConfidence(ms, c), c) == OfConfidence(ms, c)
    decreases |ms|
  {
    if |ms| > 0 {
      OfConfidenceSame(ms[1..], c);
    }
  }

  lemma {:induction false} OfConfidenceConcat(a: seq<MatchResult>, b: seq<MatchResult>, c: Confidence)
    ensures OfConfidence(a + b, c) == OfConfidence(a, c) + OfConfidence(b, c)
    decreases |a|
  {
    if |a| == 0 {
      assert a + b == b;
    } else {
      assert (a + b)[0] == a[0] && (a + b)[1..] == a[1..] + b;
      OfConfidenceConcat(a[1..], b, c);
    }
  }

  /** Stability: the matches of each confidence keep their source order. */
  lemma SortedStable(ms: seq<MatchResult>, c: Confidence)
    ensures OfConfidence(SortByConfidence(ms), c) == OfConfidence(ms, c)
  {
    var h, m, l := OfConfidence(ms, High), OfConfidence(ms, Medium), OfConfidence(ms, Low);
    OfConfidenceConcat(h + m, l, c);
    OfConfidenceConcat(h, m, c);
    if c == High {
      OfConfidenceSame(ms, High);
      OfConfidenceOther(ms, Medium, High);
      OfConfidenceOther(ms, Low, High);
    } else if c == Medium {
      OfConfidenceSame(ms, Medium);
      OfConfidenceOther(ms, High, Medium);
      OfConfidenceOther(ms, Low, Medium);
    } else {
      OfConfidenceSame(ms, Low);
      OfConfidenceOther(ms, High, Low);
      OfConfidenceOther(ms, Medium, Low);
    }
  }

  // ---------------------------------------------------------------------------
  // The route
  // ---------------------------------------------------------------------------

  /** A thrown value: an `Error` with its message, or anything else. */
  datatype Thrown = ErrorThrown(message: string) | OtherThrown

  datatype RequestBody =
    | Body(doubanId: Option<string>, title: Option<string>, year: Option<YearValue>)
    | Unparseable(error: Thrown)

  /** The sources read from the database, or the error that read threw. */
  datatype SourcesLoad = Loaded(sources: seq<VodSource>) | LoadThrew(error: Thrown)

  datatype MatchData = MatchData(
    doubanId: Option<string>,
    title: string,
    year: Option<YearValue>,
    totalSources: nat,
    matchedSources: nat,
    matches: seq<MatchResult>)

  /** The HTTP status, the `code` field, the message and the data of a reply. */
  datatype Response = Response(status: int, code: int, message: string, data: Option<MatchData>)

  const MissingTitleMsg := "缺少影片标题"
  const NoSourcesMsg := "未配置视频源，请先在后台管理中配置"
  const NoMatchMsg := "所有视频源均未找到匹配内容"
  const FailedMsg := "多源VOD匹配失败"

  function ErrorReply(e: Thrown): Response {
    Response(500, 500, if e.ErrorThrown? then e.message else FailedMsg, None)
  }

  function FoundMsg(n: nat): string {
    "找到 " + IntToString(n) + " 个可用播放源"
  }

  /** POST /api/douban/match-vod. A reply carries data exactly when its HTTP status is 200. */
  function Post(body: RequestBody, load: SourcesLoad, outcomes: seq<SearchOutcome>): (r: Response)
    requires load.Loaded? ==> |outcomes| == |load.sources|
    ensures r.data.Some? <==> r.status == 200
    ensures r.status == r.code || (r.status == 200 && r.code == 404)
  {
    match body
    case Unparseable(e) => ErrorReply(e)
    case Body(doubanId, title, year) =>
      if title.None? || title.value == "" then Response(400, 400, MissingTitleMsg, None)
      else match load
        case LoadThrew(e) => ErrorReply(e)
        case Loaded(sources) =>
          if |sources| == 0 then Response(404, 404, NoSourcesMsg, None)
          else
            var found := Successful(sources, outcomes, title.value, year);
            if |found| > 0 then
              Response(200, 200, FoundMsg(|found|),
                       Some(MatchData(doubanId, title.value, year, |sources|, |found|, SortByConfidence(found))))
            else
              Response(200, 404, NoMatchMsg, Some(MatchData(doubanId, title.value, year, |sources|, 0, [])))
  }

  /**
    The replies of the route: a missing title is 400, an empty source list
    404, no match a 404 code with no matches, and otherwise 200 with as many
    matches, ranked, as sources that matched.
   */
  lemma PostResponses(body: RequestBody, load: SourcesLoad, outcomes: seq<SearchOutcome>)
    requires load.Loaded? ==> |outcomes| == |load.sources|
    ensures var r := Post(body, load, outcomes);
            && (body.Body? && (body.title.None? || body.title.value == "") ==> r.status == 400 && r.code == 400 && r.data.None?)
            && (body.Body? && body.title.Some? && body.title.value != "" && load.Loaded? && load.sources == [] ==> r.status == 404 && r.code == 404)
            && (body.Unparseable? ==> r.code == 500 && r.data.None?)
            && ((r.code == 200 || r.code == 404) && r.data.Some? ==>
                  r.data.value.matchedSources == |r.data.value.matches| && r.data.value.totalSources == |load.sources|
                  && r.data.value.matchedSources <= r.data.value.totalSources
                  && RankedDescending(r.data.value.matches))
            && (r.code == 404 && r.data.Some? ==> r.data.value.matches == [] && r.status == 200)
            && (r.code == 200 ==> r.data.Some? && |r.data.value.matches| > 0
                                  && multiset(r.data.value.matches) == multiset(Successful(load.sources, outcomes, body.title.value, body.year)))
  {
    if body.Body? && body.title.Some? && body.title.value != "" && load.Loaded? && load.sources != [] {
      var found := Successful(load.sources, outcomes, body.title.value, body.year);
      SortedRanked(found);
      SortedPermutation(found);
      if |found| > 0 {
        assert |SortByConfidence(found)| == |found| by {
          assert |multiset(SortByConfidence(found))| == |multiset(found)|;
        }
      }
    }
  }
}

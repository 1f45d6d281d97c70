/**
  The drama detail route (`POST /api/drama/detail`): parsing the episode list
  out of a `vod_play_url`, formatting a detail item with its defaults, the
  two reply shapes a source may send, and the route's error replies.

  The outcome of the upstream request and of `JSON.parse` are inputs.
 */
module DramaDetail {
  import opened Strings

  // ---------------------------------------------------------------------------
  // parseEpisodes
  // ---------------------------------------------------------------------------

  datatype Episode = Episode(name: string, url: string)

  /** Every character of a piece of a split occurs in the split string. */
  lemma {:induction false} SplitPartChars(s: string, sep: string, k: nat)
    requires |sep| > 0 && k < |Split(s, sep)|
    ensures forall c :: c in Split(s, sep)[k] ==> c in s
    decreases |s|
  {
    match IndexOf(s, sep)
    case None =>
    case Some(i) =>
      if k > 0 {
        var rest := s[i + |sep|..];
        SplitPartChars(rest, sep, k - 1);
        forall c | c in rest ensures c in s {
          var j :| 0 <= j < |rest| && rest[j] == c;
          assert s[i + |sep| + j] == c;
        }
      } else {
        forall c | c in s[..i] ensures c in s {
          var j :| 0 <= j < i && s[..i][j] == c;
          assert s[j] == c;
        }
      }
  }

  /** `playUrl.split('$$$').filter(Boolean)`: the play sources. */
  function PlaySources(playUrl: string): seq<string> {
    NonEmpty(Split(playUrl, "$$$"))
  }

  /** `sources.find(source => source.includes('.m3u8'))`, as an index. */
  function FirstM3u8(sources: seq<string>): (r: Option<nat>)
    ensures r.Some? ==> r.value < |sources| && Contains(sources[r.value], ".m3u8")
    ensures r.Some? ==> forall k :: 0 <= k < r.value ==> !Contains(sources[k], ".m3u8")
    ensures r.None? ==> forall k :: 0 <= k < |sources| ==> !Contains(sources[k], ".m3u8")
  {
    if |sources| == 0 then None
    else if Contains(sources[0], ".m3u8") then Some(0)
    else match FirstM3u8(sources[1..])
      case Some(i) =>
        assert forall k :: 1 <= k <= i ==> sources[k] == sources[1..][k - 1];
        Some(i + 1)
      case None =>
        assert forall k :: 1 <= k < |sources| ==> sources[k] == sources[1..][k - 1];
        None
  }

  /**
    `m3u8Source || sources[0]`: the first play source with `.m3u8` in it,
    else the first play source. A found source is non-empty, so it is
    always taken when there is one.
   */
  function TargetSource(playUrl: string): Option<string> {
    var sources := PlaySources(playUrl);
    match FirstM3u8(sources)
    case Some(i) => Some(sources[i])
    case None => if |sources| > 0 then Some(sources[0]) else None
  }

  /** The chosen play source is a non-empty `$$$` piece: the first with `.m3u8`, else the first. */
  lemma TargetChoice(playUrl: string)
    ensures var sources := PlaySources(playUrl);
            var t := TargetSource(playUrl);
            && (t.None? <==> sources == [])
            && (t.Some? ==> t.value in Split(playUrl, "$$$") && t.value != "")
            && ((forall k :: 0 <= k < |sources| ==> !Contains(sources[k], ".m3u8")) && sources != [] ==> t == Some(sources[0]))
    ensures var sources := PlaySources(playUrl);
            (exists k :: 0 <= k < |sources| && Contains(sources[k], ".m3u8")) ==>
              exists i :: 0 <= i < |sources| && TargetSource(playUrl) == Some(sources[i]) && Contains(sources[i], ".m3u8")
                          && forall k :: 0 <= k < i ==> !Contains(sources[k], ".m3u8")
  {
    var sources := PlaySources(playUrl);
    if sources != [] {
      assert sources[0] in sources;
    }
    match FirstM3u8(sources)
    case Some(i) =>
      assert sources[i] in sources;
    case None =>
  }

  /** `const [name, url] = episode.split('$')`, kept when both are non-empty. */
  function EpisodeOf(piece: string): Option<Episode> {
    var parts := Split(piece, "$");
    var name := parts[0];
    var url := if |parts| > 1 then parts[1] else "";
    if name != "" && url != "" then Some(Episode(name, url)) else None
  }

  /** The episodes the loop pushes for `pieces`, in order. */
  function EpisodesOf(pieces: seq<string>): seq<Episode>
    decreases |pieces|
  {
    if |pieces| == 0 then []
    else
      var init := EpisodesOf(pieces[..|pieces| - 1]);
      match EpisodeOf(pieces[|pieces| - 1])
      case Some(e) => init + [e]
      case None => init
  }

  /** What parseEpisodes returns for `playUrl`. */
  function Episodes(playUrl: string): seq<Episode> {
    if playUrl == "" then []
    else match TargetSource(playUrl)
      case None => []
      case Some(target) => EpisodesOf(NonEmpty(Split(target, "#")))
  }

  /** parseEpisodes */
  method ParseEpisodes(playUrl: string) returns (episodes: seq<Episode>)
    ensures episodes == Episodes(playUrl)
  {
    if playUrl == "" {
      return [];
    }
    var sources := PlaySources(playUrl);
    var m3u8Source := FirstM3u8(sources);
    var targetSource := "";
    if m3u8Source.Some? {
      targetSource := sources[m3u8Source.value];
    } else if |sources| > 0 {
      targetSource := sources[0];
    }
    if targetSource == "" {
      return [];
    }
    episodes := [];
    var episodeList := NonEmpty(Split(targetSource, "#"));
    for i := 0 to |episodeList|
      invariant episodes == EpisodesOf(episodeList[..i])
    {
      assert episodeList[..i + 1][..i] == episodeList[..i];
      var parts := Split(episodeList[i], "$");
      var name := parts[0];
      var url := if |parts| > 1 then parts[1] else "";
      if name != "" && url != "" {
        episodes := episodes + [Episode(name, url)];
      }
    }
    assert episodeList[..|episodeList|] == episodeList;
  }

  /** Each piece contributes its own episodes, in order. */
  lemma {:induction false} EpisodesOfConcat(a: seq<string>, b: seq<string>)
    ensures EpisodesOf(a + b) == EpisodesOf(a) + EpisodesOf(b)
    decreases |b|
  {
    if |b| == 0 {
      assert a + b == a;
    } else {
      var b' := b[..|b| - 1];
      assert (a + b)[..|a + b| - 1] == a + b';
      assert (a + b)[|a + b| - 1] == b[|b| - 1];
      EpisodesOfConcat(a, b');
    }
  }

  predicate CleanEpisode(e: Episode) {
    e.name != "" && e.url != "" && '#' !in e.name && '#' !in e.url && '$' !in e.name && '$' !in e.url
  }

  lemma EpisodeOfClean(piece: string)
    requires '#' !in piece
    ensures EpisodeOf(piece).Some? ==> CleanEpisode(EpisodeOf(piece).value)
  {
    var parts := Split(piece, "$");
    SplitCharFree(piece, '$', 0);
    SplitPartChars(piece, "$", 0);
    if |parts| > 1 {
      SplitCharFree(piece, '$', 1);
      SplitPartChars(piece, "$", 1);
    }
  }

  lemma {:induction false} EpisodesOfClean(pieces: seq<string>)
    requires forall k :: 0 <= k < |pieces| ==> '#' !in pieces[k]
    ensures forall e :: e in EpisodesOf(pieces) ==> CleanEpisode(e)
    ensures |EpisodesOf(pieces)| <= |pieces|
    decreases |pieces|
  {
    if |pieces| > 0 {
      EpisodesOfClean(pieces[..|pieces| - 1]);
      EpisodeOfClean(pieces[|pieces| - 1]);
    }
  }

  /**
    Every episode has a non-empty name and url, neither holding `#` or `$`;
    there are at most as many as non-empty `#` pieces of the chosen source,
    and none for an empty play url.
   */
  lemma EpisodesClean(playUrl: string)
    ensures forall e :: e in Episodes(playUrl) ==> CleanEpisode(e)
    ensures playUrl == "" ==> Episodes(playUrl) == []
    ensures TargetSource(playUrl).Some? ==> |Episodes(playUrl)| <= |NonEmpty(Split(TargetSource(playUrl).value, "#"))|
  {
    match TargetSource(playUrl)
    case None =>
    case Some(target) =>
      var pieces := NonEmpty(Split(target, "#"));
      forall k | 0 <= k < |pieces| ensures '#' !in pieces[k] {
        assert pieces[k] in Split(target, "#");
        var j :| 0 <= j < |Split(target, "#")| && Split(target, "#")[j] == pieces[k];
        SplitCharFree(target, '#', j);
      }
      EpisodesOfClean(pieces);
  }

  // ---------------------------------------------------------------------------
  // formatDramaDetail
  // ---------------------------------------------------------------------------

  /** A detail item; an absent text field is the empty string. */
  datatype DetailItem = DetailItem(
    vodId: int,
    vodName: string,
    pic: string,
    remarks: string,
    typeName: string,
    playUrl: string,
    actor: string,
    director: string,
    content: string,
    area: string,
    year: string,
    score: string)

  datatype Drama = Drama(
    id: int,
    name: string,
    pic: string,
    remarks: string,
    kind: string,
    actor: string,
    director: string,
    blurb: string,
    area: string,
    year: string,
    score: string,
    episodes: seq<Episode>)

  /** `s || fallback` on strings. */
  function OrElse(s: string, fallback: string): (r: string)
    ensures s != "" ==> r == s
    ensures s == "" ==> r == fallback
  {
    if s != "" then s else fallback
  }

  const DefaultType := "影视"
  const DefaultScore := "0.0"

  /**
    formatDramaDetail: missing text fields become empty, except the type
    (影视) and the score (0.0), which are therefore never empty; the blurb
    is the item's content and the episodes are parsed from its play url.
   */
  function FormatDramaDetail(item: DetailItem): (d: Drama)
    ensures d.id == item.vodId && d.name == item.vodName && d.pic == item.pic && d.blurb == item.content
    ensures d.kind != "" && d.score != ""
    ensures item.typeName == "" <==> d.kind == DefaultType && item.typeName != DefaultType
    ensures item.typeName != "" ==> d.kind == item.typeName
    ensures item.score == "" ==> d.score == DefaultScore
    ensures item.score != "" ==> d.score == item.score
    ensures d.remarks == item.remarks && d.actor == item.actor && d.director == item.director
    ensures d.area == item.area && d.year == item.year
    ensures d.episodes == Episodes(item.playUrl)
    ensures forall e :: e in d.episodes ==> CleanEpisode(e)
  {
    EpisodesClean(item.playUrl);
    Drama(item.vodId, item.vodName, OrElse(item.pic, ""), OrElse(item.remarks, ""), OrElse(item.typeName, DefaultType),
          OrElse(item.actor, ""), OrElse(item.director, ""), OrElse(item.content, ""), OrElse(item.area, ""),
          OrElse(item.year, ""), OrElse(item.score, DefaultScore), Episodes(item.playUrl))
  }

  // ---------------------------------------------------------------------------
  // Reply shapes
  // ---------------------------------------------------------------------------

  /** A key of a parsed object: missing, `null`, or present with a value of the expected type. */
  datatype Field<T> = Missing | Null | Present(value: T)

  /** The result of `JSON.parse`, as far as the route looks at it. Arrays are objects without these keys. */
  datatype Json =
    | JsonNull
    | JsonScalar
    | JsonObject(success: Field<bool>, data: Field<seq<DetailItem>>, code: Field<int>, list: Field<seq<DetailItem>>)

  /** isProxyResponse: an object with `success` and `data` keys. */
  predicate IsProxyResponse(j: Json) {
    j.JsonObject? && !j.success.Missing? && !j.data.Missing?
  }

  /** isStandardResponse: an object with a `code` key. */
  predicate IsStandardResponse(j: Json) {
    j.JsonObject? && !j.code.Missing?
  }

  /** A body the source sends instead of data: an XML or HTML page, or the unauthorised-domain notice. */
  predicate Refused(text: string) {
    Contains(text, "域名未授权") || StartsWith(text, "<?xml") || StartsWith(text, "<!DOCTYPE")
  }

  // ---------------------------------------------------------------------------
  // parseInt
  // ---------------------------------------------------------------------------

  predicate IsDigit(c: char) {
    '0' <= c <= '9'
  }

  /** The length of the run of decimal digits at the start of `s`. */
  function DigitRun(s: string): (n: nat)
    ensures n <= |s|
    ensures forall k :: 0 <= k < n ==> IsDigit(s[k])
    ensures n < |s| ==> !IsDigit(s[n])
  {
    if |s| > 0 && IsDigit(s[0]) then 1 + DigitRun(s[1..]) else 0
  }

  /** The value of a string of decimal digits. */
  function DigitsValue(s: string): nat
    requires forall k :: 0 <= k < |s| ==> IsDigit(s[k])
    decreases |s|
  {
    if |s| == 0 then 0
    else
      assert IsDigit(s[|s| - 1]);
      10 * DigitsValue(s[..|s| - 1]) + (s[|s| - 1] as int - '0' as int)
  }

  /** `parseInt(s)` in base 10: leading white space, a sign, then digits; `None` is `NaN`. */
  function ParseInt(s: string): Option<int> {
    ParseSigned(TrimStart(s))
  }

  /** What `parseInt` does after skipping leading white space. */
  function ParseSigned(t: string): Option<int> {
    var negative := |t| > 0 && t[0] == '-';
    var u := if |t| > 0 && (t[0] == '-' || t[0] == '+') then t[1..] else t;
    var n := DigitRun(u);
    if n == 0 then None
    else
      var v: int := DigitsValue(u[..n]);
      Some(if negative then -v else v)
  }

  lemma {:induction false} NatToStringValue(n: nat)
    ensures DigitsValue(NatToString(n)) == n
    decreases n
  {
    if n >= 10 {
      NatToStringValue(n / 10);
      var s := NatToString(n);
      assert s[..|s| - 1] == NatToString(n / 10);
    }
  }

  /** A string starting with a digit or a sign has no white space to skip. */
  lemma NoLeadingSpace(t: string)
    requires |t| > 0 && (IsDigit(t[0]) || t[0] == '-')
    ensures TrimStart(t) == t
  {
  }

  /** Digits without white space or sign before them parse to their value. */
  lemma ParseDigits(d: string)
    requires |d| > 0 && forall k :: 0 <= k < |d| ==> IsDigit(d[k])
    ensures ParseInt(d) == Some(DigitsValue(d))
  {
    NoLeadingSpace(d);
    DigitRunAll(d);
    assert d[..|d|] == d;
  }

  lemma ParseNegativeDigits(d: string)
    requires |d| > 0 && forall k :: 0 <= k < |d| ==> IsDigit(d[k])
    ensures ParseInt("-" + d) == Some(-(DigitsValue(d) as int))
  {
    NoLeadingSpace("-" + d);
    SignedNegative(d);
  }

  lemma SignedNegative(d: string)
    requires |d| > 0 && forall k :: 0 <= k < |d| ==> IsDigit(d[k])
    ensures ParseSigned("-" + d) == Some(-(DigitsValue(d) as int))
  {
    var t := "-" + d;
    assert t[1..] == d;
    DigitRunAll(d);
    assert d[..|d|] == d;
  }

  /** `parseInt(String(n))` is `n`. */
  lemma ParseIntRoundTrip(n: int)
    ensures ParseInt(IntToString(n)) == Some(n)
  {
    var m: nat := if n < 0 then -n else n;
    NatToStringValue(m);
    if n < 0 {
      ParseNegativeDigits(NatToString(m));
    } else {
      ParseDigits(NatToString(m));
    }
  }

  lemma {:induction false} DigitRunAll(s: string)
    requires forall k :: 0 <= k < |s| ==> IsDigit(s[k])
    ensures DigitRun(s) == |s|
    decreases |s|
  {
    if |s| > 0 {
      DigitRunAll(s[1..]);
    }
  }

  // ---------------------------------------------------------------------------
  // The route
  // ---------------------------------------------------------------------------

  /** The request body's source (its `api` and optional `searchProxy`), the name to search for and the ids. */
  datatype DetailRequest = DetailRequest(api: string, searchProxy: string, vodName: string, ids: string)

  /**
    The upstream request: `fetch` (or reading the reply text) threw an error
    with the given `name`, or the reply arrived.
   */
  datatype Fetched = FetchThrew(name: string) | FetchReply(ok: bool, text: string)

  /**
    The name of the error `fetch` rejects with when `AbortSignal.timeout(15000)`
    fires; `controller.abort()` would give "AbortError" instead.
   */
  const TimeoutErrorName := "TimeoutError"
  const AbortErrorName := "AbortError"

  /** A reply: the detail with code 200, or an error whose HTTP status equals its code. */
  datatype Reply = Success(detail: Drama) | Failure(status: int, msg: string)

  /** The search proxy is used when the source has one and a name is given. */
  predicate UsesProxy(req: DetailRequest) {
    req.searchProxy != "" && req.vodName != ""
  }

  /**
    `data.find(d => d.vod_id === parseInt(ids)) || data[0]`: the first item
    whose id is the parsed `ids`, or the first item when there is none.
   */
  function PickItem(items: seq<DetailItem>, ids: string): (item: DetailItem)
    requires |items| > 0
    ensures item in items
    ensures ParseInt(ids).Some? && (exists k :: 0 <= k < |items| && items[k].vodId == ParseInt(ids).value) ==>
              exists k :: 0 <= k < |items| && items[k] == item && item.vodId == ParseInt(ids).value
                && forall j :: 0 <= j < k ==> items[j].vodId != ParseInt(ids).value
    ensures (ParseInt(ids).None? || forall k :: 0 <= k < |items| ==> items[k].vodId != ParseInt(ids).value) ==> item == items[0]
  {
    match ParseInt(ids)
    case None => items[0]
    case Some(target) => FirstWithId(items, target, items[0])
  }

  /** `Array.prototype.find` with an id test, falling back to `fallback`. */
  function FirstWithId(items: seq<DetailItem>, id: int, fallback: DetailItem): (item: DetailItem)
    ensures item in items || item == fallback
    ensures (exists k :: 0 <= k < |items| && items[k].vodId == id) ==>
              exists k :: 0 <= k < |items| && items[k] == item && item.vodId == id
                && forall j :: 0 <= j < k ==> items[j].vodId != id
    ensures (forall k :: 0 <= k < |items| ==> items[k].vodId != id) ==> item == fallback
  {
    if |items| == 0 then fallback
    else if items[0].vodId == id then items[0]
    else
      assert forall k :: 1 <= k < |items| ==> items[k] == items[1..][k - 1];
      var item := FirstWithId(items[1..], id, fallback);
      assert (exists k :: 0 <= k < |items| && items[k].vodId == id) ==>
               exists k :: 1 <= k < |items| && items[k] == item && forall j :: 0 <= j < k ==> items[j].vodId != id by {
        if exists k :: 0 <= k < |items| && items[k].vodId == id {
          var k :| 0 <= k < |items| && items[k].vodId == id;
          assert items[1..][k - 1].vodId == id;
          var k' :| 0 <= k' < |items[1..]| && items[1..][k'] == item && forall j :: 0 <= j < k' ==> items[1..][j].vodId != id;
          assert items[k' + 1] == item;
          assert forall j :: 1 <= j < k' + 1 ==> items[j] == items[1..][j - 1];
        }
      }
      item
  }

  const ApiFailedMsg := "API请求失败"
  const RefusedMsg := "源API访问失败"
  const ParseFailedMsg := "响应解析失败"
  const NotFoundMsg := "未找到该影视资源"
  const DetailFailedMsg := "获取影视详情失败"
  const UnknownShapeMsg := "无法解析响应格式"
  const TimeoutMsg := "请求超时，请稍后重试"

  /** The route's `catch`, as written: only an error named "AbortError" reads as a timeout. */
  function CatchReply(errorName: string): (r: Reply)
    ensures r.Failure? && r.status == 500
    ensures r.msg == TimeoutMsg <==> errorName == AbortErrorName
    ensures r.msg != TimeoutMsg ==> r.msg == DetailFailedMsg
  {
    if errorName == AbortErrorName then Failure(500, TimeoutMsg) else Failure(500, DetailFailedMsg)
  }

  /**
    POST /api/drama/detail. `request` is `None` when the body cannot be read
    (its error reaches the `catch` as one that is not named "AbortError");
    `parsed` is what `JSON.parse` makes of the reply text, `None` when it throws.
   */
  function Post(request: Option<DetailRequest>, fetched: Fetched, parsed: Option<Json>): (r: Reply)
    ensures r.Failure? ==> r.status == 500 || r.status == 404
    ensures r.Success? ==> request.Some? && fetched.FetchReply? && parsed.Some?
  {
    match request
    case None => Failure(500, DetailFailedMsg)
    case Some(req) =>
      match fetched
      case FetchThrew(name) => CatchReply(name)
      case FetchReply(ok, text) =>
        if !ok then Failure(500, ApiFailedMsg)
        else if Refused(text) then Failure(500, RefusedMsg)
        else match parsed
          case None => Failure(500, ParseFailedMsg)
          case Some(j) =>
            if UsesProxy(req) && IsProxyResponse(j) then
              if j.success != Present(true) || !j.data.Present? || |j.data.value| == 0 then Failure(404, NotFoundMsg)
              else Success(FormatDramaDetail(PickItem(j.data.value, req.ids)))
            else if IsStandardResponse(j) then
              if j.code != Present(1) || !j.list.Present? || |j.list.value| == 0 then Failure(500, DetailFailedMsg)
              else Success(FormatDramaDetail(j.list.value[0]))
            else Failure(500, UnknownShapeMsg)
  }

  /**
    As written, the 15-second timeout is answered with the generic
    "获取影视详情失败": the timeout message needs an "AbortError", which
    `AbortSignal.timeout` never produces.
   */
  lemma TimeoutAnsweredAsFailure(req: DetailRequest, parsed: Option<Json>)
    ensures Post(Some(req), FetchThrew(TimeoutErrorName), parsed) == Failure(500, DetailFailedMsg)
    ensures forall name :: Post(Some(req), FetchThrew(name), parsed).msg == TimeoutMsg <==> name == AbortErrorName
  {
  }

  /** The intended `catch`: a timeout, whichever way it is signalled, gets the timeout message. */
  function CatchReplyIntended(errorName: string): (r: Reply)
    ensures r.Failure? && r.status == 500
    ensures r.msg == TimeoutMsg <==> errorName == AbortErrorName || errorName == TimeoutErrorName
    ensures r.msg != TimeoutMsg ==> r == CatchReply(errorName)
  {
    if errorName == TimeoutErrorName then Failure(500, TimeoutMsg) else CatchReply(errorName)
  }

  /** The route with the intended `catch`; every other path is the route as written. */
  function PostIntended(request: Option<DetailRequest>, fetched: Fetched, parsed: Option<Json>): (r: Reply)
    ensures request.Some? && fetched == FetchThrew(TimeoutErrorName) ==> r == Failure(500, TimeoutMsg)
    ensures fetched != FetchThrew(TimeoutErrorName) ==> r == Post(request, fetched, parsed)
  {
    match (request, fetched)
    case (Some(_), FetchThrew(name)) => CatchReplyIntended(name)
    case _ => Post(request, fetched, parsed)
  }

  /** A refused body is rejected before it is parsed, whatever parsing would give. */
  lemma RefusedBeforeParsing(req: DetailRequest, text: string, parsed: Option<Json>)
    requires Refused(text)
    ensures Post(Some(req), FetchReply(true, text), parsed) == Failure(500, RefusedMsg)
  {
  }

  /**
    What a successful reply carries: in the proxy branch an item of the
    proxy's list, preferring the one whose id is `parseInt(ids)`; otherwise
    the first item of a standard reply with code 1. An empty or unsuccessful
    proxy result is a 404, and every other failure a 500.
   */
  lemma PostOutcomes(request: Option<DetailRequest>, fetched: Fetched, parsed: Option<Json>)
    ensures var r := Post(request, fetched, parsed);
            && (r.Failure? ==> r.status == 500 || r.status == 404)
            && (r.Failure? && r.status == 404 ==> r.msg == NotFoundMsg && request.Some? && UsesProxy(request.value))
            && (r.Success? ==> fetched.FetchReply? && fetched.ok && !Refused(fetched.text) && parsed.Some?)
            && (r.Success? && request.Some? && UsesProxy(request.value) && IsProxyResponse(parsed.value) ==>
                  parsed.value.success == Present(true) && parsed.value.data.Present?
                  && exists item :: item in parsed.value.data.value && r.detail == FormatDramaDetail(item))
            && (r.Success? && !(request.Some? && UsesProxy(request.value) && IsProxyResponse(parsed.value)) ==>
                  parsed.value.code == Present(1) && parsed.value.list.Present? && |parsed.value.list.value| > 0
                  && r.detail == FormatDramaDetail(parsed.value.list.value[0]))
  {
    var r := Post(request, fetched, parsed);
    if r.Success? && request.Some? && UsesProxy(request.value) && IsProxyResponse(parsed.value) {
      var item := PickItem(parsed.value.data.value, request.value.ids);
      assert r.detail == FormatDramaDetail(item);
    }
  }
}

/**
  The Douban API client: the proxy list read from `DOUBAN_API_PROXY`, the
  rewrite of Douban URLs onto a proxy, the retrying fetch with exponential
  backoff, and how its callers treat a failed request.

  The network is a parameter: `outcomeOf(k)` is what attempt k (from 1)
  yields. Random choices (proxy, user agent) and the URL parser are
  parameters too.
 */
module DoubanClient {
  import opened Strings

  // ---------------------------------------------------------------------------
  // The proxy list
  // ---------------------------------------------------------------------------

  function TrimAll(parts: seq<string>): (r: seq<string>)
    ensures |r| == |parts|
    ensures forall k :: 0 <= k < |r| ==> r[k] == Trim(parts[k])
  {
    if |parts| == 0 then [] else [Trim(parts[0])] + TrimAll(parts[1..])
  }

  /** `x` is one of the trimmed comma-separated pieces of `env`. */
  predicate IsPiece(env: string, x: string) {
    exists k :: 0 <= k < |Split(env, ",")| && Trim(Split(env, ",")[k]) == x
  }

  /** DOUBAN_API_PROXIES: the comma-separated value, each piece trimmed, empty pieces dropped. */
  function ProxyList(env: string): (r: seq<string>)
    ensures forall x :: x in r <==> x != "" && IsPiece(env, x)
  {
    var parts := Split(env, ",");
    var pieces := TrimAll(parts);
    forall x ensures x in pieces <==> IsPiece(env, x) {
      if x in pieces {
        var k :| 0 <= k < |pieces| && pieces[k] == x;
        assert Trim(parts[k]) == x;
      }
      if IsPiece(env, x) {
        var k :| 0 <= k < |parts| && Trim(parts[k]) == x;
        assert pieces[k] == x;
      }
    }
    NonEmpty(pieces)
  }

  /**
    The proxies keep the order of the comma-separated pieces: the first
    piece, trimmed, comes first unless it is blank, then the proxies of the
    rest. This is the order `getRandomProxy`'s index draws from.
   */
  lemma ProxyListCons(first: string, rest: string)
    requires ',' !in first
    ensures ProxyList(first + "," + rest) == (if Trim(first) == "" then [] else [Trim(first)]) + ProxyList(rest)
  {
    var env := first + "," + rest;
    assert MatchAt(env, ",", |first|);
    forall j | 0 <= j < |first| ensures !MatchAt(env, ",", j) {
      assert env[j] == first[j];
    }
    assert IndexOf(env, ",") == Some(|first|);
    assert env[..|first|] == first;
    assert env[|first| + 1..] == rest;
    var parts := Split(env, ",");
    assert parts == [first] + Split(rest, ",");
    assert TrimAll(parts) == [Trim(first)] + TrimAll(Split(rest, ","));
  }

  /** Every proxy is a non-empty, comma-free string with no surrounding white space. */
  lemma ProxyEntriesClean(env: string, x: string)
    requires x in ProxyList(env)
    ensures x != "" && ',' !in x
    ensures !IsJsSpace(x[0]) && !IsJsSpace(x[|x| - 1])
  {
    var k :| 0 <= k < |Split(env, ",")| && Trim(Split(env, ",")[k]) == x;
    SplitCharFree(env, ',', k);
    TrimEnds(Split(env, ",")[k]);
    ContainedCharSurvivesTrim(Split(env, ",")[k], ',');
  }

  /** Trimming never adds characters. */
  lemma ContainedCharSurvivesTrim(s: string, c: char)
    requires c !in s
    ensures c !in Trim(s)
  {
    TrimStartSuffix(s);
    TrimEndPrefix(TrimStart(s));
    var t := TrimStart(s);
    assert t == s[|s| - |t|..];
    assert Trim(s) == t[..|Trim(s)|];
    forall i | 0 <= i < |Trim(s)| ensures Trim(s)[i] != c {
      assert Trim(s)[i] == t[i] == s[|s| - |t| + i];
    }
  }

  /** An unset variable gives no proxies, hence no proxy is ever chosen. */
  lemma UnsetEnvNoProxy()
    ensures ProxyList("") == []
  {
    assert Split("", ",") == [""];
    assert Trim("") == "";
  }

  /** getRandomProxy, with `draw` the value of `Math.floor(Math.random() * n)`. */
  function RandomProxy(proxies: seq<string>, draw: nat): (r: Option<string>)
    requires proxies != [] ==> draw < |proxies|
    ensures r.None? <==> proxies == []
    ensures r.Some? ==> r.value in proxies
  {
    if proxies == [] then None else Some(proxies[draw])
  }

  /** getProxyStatus */
  datatype ProxyStatus = ProxyStatus(enabled: bool, count: nat, urls: seq<string>)

  function GetProxyStatus(proxies: seq<string>): (r: ProxyStatus)
    ensures r.enabled <==> r.count > 0
    ensures r.count == |r.urls| && r.urls == proxies
  {
    ProxyStatus(|proxies| > 0, |proxies|, proxies)
  }

  // ---------------------------------------------------------------------------
  // convertToProxyUrl
  // ---------------------------------------------------------------------------

  /** The parts of a URL that `new URL(...)` yields; None when it throws. */
  datatype UrlParts = UrlParts(hostname: string, pathname: string, search: string)

  datatype ProxiedUrl = ProxiedUrl(url: string, proxy: Option<string>)

  /** Whether convertToProxyUrl rewrites: a proxy, a parsable URL, and a Douban host. */
  predicate Rewrites(proxy: Option<string>, parsed: Option<UrlParts>) {
    proxy.Some? && proxy.value != "" && parsed.Some? && Contains(parsed.value.hostname, "douban.com")
  }

  function ConvertToProxyUrl(original: string, proxy: Option<string>, parsed: Option<UrlParts>): (r: ProxiedUrl)
    ensures r.proxy.Some? <==> Rewrites(proxy, parsed)
    ensures !Rewrites(proxy, parsed) ==> r == ProxiedUrl(original, None)
    ensures Rewrites(proxy, parsed) ==>
              r.proxy == proxy && StartsWith(r.url, proxy.value)
              && r.url[|proxy.value|..] == parsed.value.pathname + parsed.value.search
  {
    if proxy.None? || proxy.value == "" then ProxiedUrl(original, None)
    else if parsed.None? then ProxiedUrl(original, None)
    else if !Contains(parsed.value.hostname, "douban.com") then ProxiedUrl(original, None)
    else
      var u := proxy.value + parsed.value.pathname + parsed.value.search;
      assert u[..|proxy.value|] == proxy.value;
      assert u[|proxy.value|..] == parsed.value.pathname + parsed.value.search;
      ProxiedUrl(u, proxy)
  }

  /** Without configured proxies every URL is fetched as given. */
  lemma NoProxiesNoRewrite(original: string, parsed: Option<UrlParts>)
    ensures ConvertToProxyUrl(original, RandomProxy(ProxyList(""), 0), parsed) == ProxiedUrl(original, None)
  {
    UnsetEnvNoProxy();
  }

  // ---------------------------------------------------------------------------
  // doubanFetch
  // ---------------------------------------------------------------------------

  const DefaultTimeoutMs := 10000
  const DefaultRetries := 3
  const DefaultRetryDelayMs := 1000

  /** Caller options; an absent field falls back to DEFAULT_OPTIONS. */
  datatype FetchOptions = FetchOptions(timeout: Option<int>, retries: Option<int>, retryDelay: Option<int>)

  const NoOptions := FetchOptions(None, None, None)

  datatype Settings = Settings(timeout: int, retries: int, retryDelay: int)

  function Resolve(o: FetchOptions): (s: Settings)
    ensures o == NoOptions ==> s == Settings(DefaultTimeoutMs, DefaultRetries, DefaultRetryDelayMs)
    ensures o.timeout.Some? ==> s.timeout == o.timeout.value
    ensures o.retries.Some? ==> s.retries == o.retries.value
    ensures o.retryDelay.Some? ==> s.retryDelay == o.retryDelay.value
  {
    Settings(o.timeout.GetOr(DefaultTimeoutMs), o.retries.GetOr(DefaultRetries), o.retryDelay.GetOr(DefaultRetryDelayMs))
  }

  /** What one fetch yields: a response, or a rejection (a network error or the timeout's abort). */
  datatype AttemptOutcome = Got(status: int, statusText: string) | Rejected(message: string)

  datatype FetchResult = Returned(status: int, statusText: string) | Threw(message: string)

  const NoAttemptMsg := "请求失败"

  /** A 403 or 429 is a rate limit and is retried like a rejection. */
  predicate RateLimited(o: AttemptOutcome) {
    o.Got? && (o.status == 403 || o.status == 429)
  }

  /** The error an attempt that is not returned leaves as `lastError`. */
  function AttemptError(o: AttemptOutcome): string {
    match o
    case Got(status, text) => "HTTP " + IntToString(status) + ": " + text
    case Rejected(message) => message
  }

  function Pow2(k: nat): (r: nat)
    ensures r >= 1
  {
    if k == 0 then 1 else 2 * Pow2(k - 1)
  }

  /** The wait after a failed attempt `attempt` (from 1). */
  function Backoff(retryDelay: int, attempt: nat): int
    requires attempt >= 1
  {
    retryDelay * Pow2(attempt - 1)
  }

  /** The whole run: the result, the waits slept, and the number of attempts made. */
  datatype Trace = Trace(result: FetchResult, waits: seq<int>, attempts: nat)

  /** The loop from attempt `attempt` on, with `lastError` from the attempts before. */
  function Run(outcomeOf: nat -> AttemptOutcome, retries: int, retryDelay: int, attempt: nat, lastError: Option<string>): Trace
    requires attempt >= 1
    decreases if retries < attempt then 0 else retries - attempt + 1
  {
    if attempt > retries then Trace(Threw(lastError.GetOr(NoAttemptMsg)), [], attempt - 1)
    else
      var o := outcomeOf(attempt);
      if !RateLimited(o) && o.Got? then Trace(Returned(o.status, o.statusText), [], attempt)
      else if attempt < retries then
        var rest := Run(outcomeOf, retries, retryDelay, attempt + 1, Some(AttemptError(o)));
        Trace(rest.result, [Backoff(retryDelay, attempt)] + rest.waits, rest.attempts)
      else Trace(Threw(AttemptError(o)), [], attempt)
  }

  function FetchSpec(outcomeOf: nat -> AttemptOutcome, s: Settings): Trace {
    Run(outcomeOf, s.retries, s.retryDelay, 1, None)
  }

  /** All attempts before `k` failed (rate limited or rejected). */
  predicate FailedBefore(outcomeOf: nat -> AttemptOutcome, from: nat, k: nat) {
    forall j :: from <= j < k ==> !outcomeOf(j).Got? || RateLimited(outcomeOf(j))
  }

  /**
    The loop's promises, from attempt `attempt` on: at most `retries` attempts
    in all; the first response that is not a rate limit is returned as it is,
    whatever its status; the waits are retryDelay·2^(k−1) after each failed
    attempt k but the last; when every attempt fails, the last error is thrown.
   */
  lemma {:induction false} RunFacts(outcomeOf: nat -> AttemptOutcome, retries: int, retryDelay: int, attempt: nat,
                                    lastError: Option<string>)
    requires attempt >= 1
    ensures var t := Run(outcomeOf, retries, retryDelay, attempt, lastError);
            && (retries >= attempt ==> attempt <= t.attempts <= retries)
            && (retries < attempt ==> t == Trace(Threw(lastError.GetOr(NoAttemptMsg)), [], attempt - 1))
            && (retries >= attempt ==> |t.waits| == t.attempts - attempt)
            && (forall i :: 0 <= i < |t.waits| ==> t.waits[i] == Backoff(retryDelay, attempt + i))
            && (retries >= attempt ==> FailedBefore(outcomeOf, attempt, t.attempts))
            && (t.result.Returned? ==>
                  retries >= attempt && outcomeOf(t.attempts) == Got(t.result.status, t.result.statusText)
                  && !RateLimited(outcomeOf(t.attempts)))
            && (t.result.Threw? && retries >= attempt ==>
                  t.attempts == retries && t.result.message == AttemptError(outcomeOf(retries))
                  && FailedBefore(outcomeOf, attempt, retries + 1))
    decreases if retries < attempt then 0 else retries - attempt + 1
  {
    if attempt <= retries {
      var o := outcomeOf(attempt);
      if !(!RateLimited(o) && o.Got?) && attempt < retries {
        RunFacts(outcomeOf, retries, retryDelay, attempt + 1, Some(AttemptError(o)));
        var rest := Run(outcomeOf, retries, retryDelay, attempt + 1, Some(AttemptError(o)));
        var t := Run(outcomeOf, retries, retryDelay, attempt, lastError);
        assert t.waits == [Backoff(retryDelay, attempt)] + rest.waits;
        forall i | 0 <= i < |t.waits| ensures t.waits[i] == Backoff(retryDelay, attempt + i) {
          if i > 0 {
            assert t.waits[i] == rest.waits[i - 1];
          }
        }
      }
    }
  }

  /** With the default options: at most three attempts, waiting 1000 ms and then 2000 ms. */
  lemma DefaultSchedule(outcomeOf: nat -> AttemptOutcome)
    ensures var t := FetchSpec(outcomeOf, Resolve(NoOptions));
            && 1 <= t.attempts <= 3
            && |t.waits| == t.attempts - 1
            && (|t.waits| >= 1 ==> t.waits[0] == 1000)
            && (|t.waits| >= 2 ==> t.waits[1] == 2000)
  {
    RunFacts(outcomeOf, 3, 1000, 1, None);
  }

  /** A first attempt that gets any response other than 403/429 ends the run with that response. */
  lemma FirstResponseReturned(outcomeOf: nat -> AttemptOutcome, s: Settings)
    requires s.retries >= 1 && outcomeOf(1).Got? && !RateLimited(outcomeOf(1))
    ensures FetchSpec(outcomeOf, s) == Trace(Returned(outcomeOf(1).status, outcomeOf(1).statusText), [], 1)
  {
  }

  /** doubanFetch: the attempts, the waits between them, and the response returned or the error thrown. */
  method DoubanFetch(outcomeOf: nat -> AttemptOutcome, options: FetchOptions)
    returns (result: FetchResult, waits: seq<int>, attempts: nat)
    ensures Trace(result, waits, attempts) == FetchSpec(outcomeOf, Resolve(options))
  {
    var s := Resolve(options);
    var retries := s.retries;
    var retryDelay := s.retryDelay;
    var lastError: Option<string> := None;
    waits := [];
    var attempt: nat := 1;
    while attempt <= retries
      invariant attempt >= 1
      invariant var t := Run(outcomeOf, retries, retryDelay, attempt, lastError);
                FetchSpec(outcomeOf, s) == Trace(t.result, waits + t.waits, t.attempts)
      decreases retries - attempt + 1
    {
      var o := outcomeOf(attempt);
      if o.Got? && !(o.status == 403 || o.status == 429) {
        return Returned(o.status, o.statusText), waits, attempt;
      }
      lastError := Some(AttemptError(o));
      if attempt < retries {
        var wait := retryDelay * Pow2(attempt - 1);
        AppendAssoc(waits, [wait], Run(outcomeOf, retries, retryDelay, attempt + 1, lastError).waits);
        waits := waits + [wait];
        attempt := attempt + 1;
      } else {
        return Threw(lastError.value), waits, attempt;
      }
    }
    return Threw(lastError.GetOr(NoAttemptMsg)), waits, attempt - 1;
  }

  // ---------------------------------------------------------------------------
  // The callers
  // ---------------------------------------------------------------------------

  datatype Answer<T> = Value(value: T) | Failure(message: string)

  predicate IsOk(status: int) {
    200 <= status <= 299
  }

  /** What `response.json()` makes of a body: a value, or the error it rejects with. */
  datatype Body<T> = Parsed(value: T) | Unparseable(error: string)

  /**
    doubanSearchSubjects / doubanSubjectAbstract: a non-OK response becomes
    an error, a thrown fetch propagates, and so does a body that does not parse.
   */
  function StrictCall<T>(r: FetchResult, body: Body<T>): (a: Answer<T>)
    ensures a.Value? <==> r.Returned? && IsOk(r.status) && body.Parsed?
    ensures a.Value? ==> a.value == body.value
    ensures r.Threw? ==> a == Failure(r.message)
    ensures r.Returned? && IsOk(r.status) && body.Unparseable? ==> a == Failure(body.error)
  {
    match r
    case Threw(m) => Failure(m)
    case Returned(status, text) =>
      if !IsOk(status) then Failure("HTTP " + IntToString(status) + ": " + text)
      else match body
        case Parsed(v) => Value(v)
        case Unparseable(e) => Failure(e)
  }

  /**
    doubanSubjectSuggest as written: a thrown fetch and a non-OK status give
    `[]`, but `return response.json()` hands the body's promise out of the
    `try` unawaited, so a body that does not parse rejects past the `catch`.
   */
  function SuggestCall<T>(r: FetchResult, body: Body<seq<T>>): (a: Answer<seq<T>>)
    ensures !(r.Returned? && IsOk(r.status)) ==> a == Value([])
    ensures r.Returned? && IsOk(r.status) ==>
              (a.Value? <==> body.Parsed?) && (a.Value? ==> a.value == body.value) && (a.Failure? ==> a.message == body.error)
  {
    if !(r.Returned? && IsOk(r.status)) then Value([])
    else match body
      case Parsed(v) => Value(v)
      case Unparseable(e) => Failure(e)
  }

  /** doubanNewMovies: `data.data || []` on an OK response whose body parses. */
  function NewMoviesCall<T>(r: FetchResult, data: Body<Option<seq<T>>>): (a: Answer<seq<T>>)
    ensures a.Value? <==> r.Returned? && IsOk(r.status) && data.Parsed?
    ensures a.Value? && data.value.None? ==> a.value == []
    ensures a.Value? && data.value.Some? ==> a.value == data.value.value
  {
    match StrictCall(r, data)
    case Value(d) => Value(d.GetOr([]))
    case Failure(m) => Failure(m)
  }

  /**
    The suggest API swallows every failure of the transport and the status
    that makes the search API throw, and agrees with it on success; a body
    that does not parse, though, is thrown by both.
   */
  lemma SuggestSwallowsWhatSearchThrows<T>(r: FetchResult, body: Body<seq<T>>)
    ensures StrictCall(r, body).Failure? && body.Parsed? ==> SuggestCall(r, body) == Value([])
    ensures StrictCall(r, body).Value? ==> SuggestCall(r, body) == StrictCall(r, body)
    ensures r.Returned? && IsOk(r.status) && body.Unparseable? ==>
              SuggestCall(r, body) == StrictCall(r, body) == Failure(body.error)
  {
  }

  /**
    doubanSubjectSuggest with the body awaited inside the `try`
    (`return await response.json()`): every failure becomes `[]`.
   */
  function SuggestCallAwaited<T>(r: FetchResult, body: Body<seq<T>>): (items: seq<T>)
    ensures r.Returned? && IsOk(r.status) && body.Parsed? ==> items == body.value
    ensures !(r.Returned? && IsOk(r.status) && body.Parsed?) ==> items == []
    ensures SuggestCall(r, body).Value? ==> items == SuggestCall(r, body).value
  {
    match StrictCall(r, body)
    case Value(v) => v
    case Failure(_) => []
  }

  /** Awaited, the suggest call never throws where the search API does: it answers `[]`. */
  lemma AwaitedSwallowsWhatSearchThrows<T>(r: FetchResult, body: Body<seq<T>>)
    ensures StrictCall(r, body).Failure? ==> SuggestCallAwaited(r, body) == []
    ensures StrictCall(r, body).Value? ==> SuggestCallAwaited(r, body) == StrictCall(r, body).value
  {
  }

  const SuggestBase := "https://movie.douban.com/j/subject_suggest?q="

  function SuggestUrl(query: string): (u: string)
    ensures StartsWith(u, SuggestBase)
  {
    var u := SuggestBase + EncodeUriComponent(query);
    assert u[..|SuggestBase|] == SuggestBase;
    u
  }

  /** The query pairs of doubanSearchSubjects, with `|| default` on each optional field. */
  function SearchParams(kind: string, tag: string, pageLimit: Option<int>, pageStart: Option<int>): (ps: seq<(string, string)>)
    ensures |ps| == 4 && ps[0] == ("type", kind) && ps[1] == ("tag", tag)
    ensures pageLimit.None? || pageLimit == Some(0) ==> ps[2] == ("page_limit", IntToString(20))
    ensures pageLimit.Some? && pageLimit.value != 0 ==> ps[2] == ("page_limit", IntToString(pageLimit.value))
    ensures pageStart.None? || pageStart == Some(0) ==> ps[3] == ("page_start", IntToString(0))
    ensures pageStart.Some? && pageStart.value != 0 ==> ps[3] == ("page_start", IntToString(pageStart.value))
  {
    var limit := if pageLimit.Some? && pageLimit.value != 0 then pageLimit.value else 20;
    var start := if pageStart.Some? && pageStart.value != 0 then pageStart.value else 0;
    [("type", kind), ("tag", tag), ("page_limit", IntToString(limit)), ("page_start", IntToString(start))]
  }
}

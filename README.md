# kerkerker: a verified model of the playback and catalogue core

kerkerker is a Next.js video-on-demand front end. It searches configured VOD
sources and Douban, shows a catalogue, a watch history, a release calendar and
an admin panel, and plays a video either in a local HLS player or in a chain of
embedded third-party players. This project is a Dafny model of the parts of it
that decide things, with proofs of what they promise:

- **HLS playback** (`ad_filter.dfy`, `local_hls_player.dfy`, `iframe_player.dfy`,
  `unified_player.dfy`, `cors_check.dfy`, with shared types in `player_types.dfy`):
  - the M3U8 ad filter, a line loop over discontinuity blocks (`#EXT-X-DISCONTINUITY`,
    section 4.3.2.3 of RFC 8216, and `#EXTINF`, section 4.3.2.1);
  - the local player's error policy with its network, media and key retry counters;
  - the embedded-player fallback chain with its attempt cap;
  - the orchestrator that picks a mode and downgrades from local to embedded playback;
  - the CORS probe classification.
- **Caches** (`ttl_cache.dfy`, `cache.dfy`, `redis.dfy`): the in-memory TTL cache
  with lazy eviction, pattern delete and `ttl`, its two default-TTL policies, and
  the Redis reconnect rules.
- **Catalogue logic**:
  - the Douban client's proxy list, URL rewrite and fetch retry loop with exponential backoff (`douban_client.dfy`);
  - title cleaning, search variants, normalisation and similarity (`title_utils.dfy`);
  - the multi-source match route (`match_vod.dfy`);
  - the drama detail route with its play-URL episode parser (`drama_detail.dfy`).
- **Page state** (`vod_sources_tab.dfy`, `history_page.dfy`, `hero_banner.dfy`,
  `calendar_page.dfy`, `admin_gate.dfy`): the admin source list, the history
  filter and selection, the carousel index, the calendar week offset, and the
  `/admin` cookie gate.

`strings.dfy` holds the JavaScript string built-ins the code relies on:
`includes`, `trim`, `split`, `toLowerCase`, `String(n)` and `encodeURIComponent`.
`vod_types.dfy` holds the VOD source record.

Code in the original that updates state step by step is modelled that way. React
components, refs and maps that mutate become classes whose fields are the
state, and each event handler, effect run or timer callback is a method. Loops
become `while`/`for` loops proved against a reference function. Pure helpers
become functions. Everything outside the program arrives as a parameter:
- the clock (`now`);
- fetch and engine outcomes;
- `JSON.parse` results;
- random draws;
- environment variables;
- the result of `new URL(…)`.

JavaScript semantics are written out where they matter:
- `||` on strings and numbers;
- `parseInt` and `parseFloat`, including `NaN`;
- `%`, which truncates toward zero, written out where its operand can be negative (`IframePlayer.JsRem`);
- `.length` and `substring` in UTF-16 code units;
- `charCodeAt(0)` of an astral character;
- stable `sort`;
- React's bail-out when a state setter receives the value the state already has.

## Model

| member | source | states |
|---|---|---|
| AdFilter.ParseFloat | lib/player/ad-filter.ts:114-119 | the `#EXTINF` number read as `parseFloat` does: NaN exactly when there is no digit before or right after a leading dot; a string starting with a digit gives a finite, non-negative duration; a finite value lies between the whole-number part and one more |
| AdFilter.ExtinfNumber | lib/player/ad-filter.ts:115-116 | the capture of `#EXTINF:([0-9.]+)`, when there is one, is a non-empty run of digits and dots |
| AdFilter.BlockDurationAppend | lib/player/ad-filter.ts:114-119 | a block's duration is the sum of its lines' `#EXTINF` numbers: durations add up over concatenated lines (NaN absorbs) |
| AdFilter.ShouldFilterDiscontinuityBlock | lib/player/ad-filter.ts:40-62 | the early-return scan says "drop" exactly when the duration is not below the minimum nor above the maximum (both bounds inclusive, NaN passes) and some trimmed non-empty, non-`#` line matches an ad pattern |
| AdFilter.IsAdUriLine | lib/player/ad-filter.ts:53-57 | a line counts as an ad URI when, trimmed, it is non-empty, does not start with `#` and matches an ad pattern; so it is never the discontinuity marker or an `#EXTINF` tag |
| AdFilter.DefaultIsAdUrl | lib/player/ad-filter.ts:15-25 | the nine default ad patterns, each tested case-insensitively, any one of which makes a URL an ad |
| AdFilter.DefaultIsAdUrlIgnoresCase | lib/player/ad-filter.ts:15-25 | the default patterns are case-insensitive: a URL and its lower-cased form are judged alike |
| AdFilter.ExtinfIncrement | lib/player/ad-filter.ts:114-119 | the duration added for one line inside a block is its `#EXTINF` number, or 0 for any other line |
| AdFilter.FilterAdsFromM3u8 | lib/player/ad-filter.ts:67-161 | the line loop computes exactly the block-wise reference filter; with the filter disabled the content comes back unchanged |
| AdFilter.FilterLinesSubseq | lib/player/ad-filter.ts:73-160 | output lines are an order-preserving subsequence of the input lines, so nothing is rewritten or inserted and the output is never longer |
| AdFilter.UriFilterKeepsNonAds | lib/player/ad-filter.ts:138-153 | before the first marker every line kept is the text of an input line that is not an ad URI |
| AdFilter.UriFilterDropsAds | lib/player/ad-filter.ts:139-150 | before the first marker no ad URI survives |
| AdFilter.UriFilterNoAds | lib/player/ad-filter.ts:138-153 | without ad URIs the per-URI filter passes every line through |
| AdFilter.BlocksFromNoAds | lib/player/ad-filter.ts:85-137 | without ad URIs every block is emitted as it is, once the first marker has been seen |
| AdFilter.FilterLinesNoAds | lib/player/ad-filter.ts:73-160 | a playlist with no ad URI and no marker on its final line comes out unchanged |
| AdFilter.ClosedBlock | lib/player/ad-filter.ts:86-102 | a block closed by a later marker is dropped exactly when the block test holds for its own summed duration; otherwise all its lines are emitted as they are, followed by the output for the next block |
| AdFilter.TrailingMarkerLost | lib/player/ad-filter.ts:103-110 | when the only marker is the last line, it is buffered and never emitted: the output is the per-URI filter of the lines before it |
| AdFilter.LoaderBody | lib/player/ad-filter.ts:182-192 | the loader filters a body with the default configuration (3 s to 120 s) only when it is a string whose URL contains `.m3u8` or whose text contains `#EXTM3U`; otherwise it hands the body on unchanged |
| LocalHlsPlayer.GetProxiedUrl | components/player/LocalHlsPlayer.tsx:77-85 | an empty URL gives `""`; a URL already under `/api/video-proxy/` and any URL in direct mode come back unchanged; otherwise the result is the proxy prefix followed by the percent-encoded URL |
| Strings.EncodeUriComponent | components/player/LocalHlsPlayer.tsx:82 | `encodeURIComponent`'s output holds only `%` and unreserved characters and is never shorter than the input; what it encodes is pinned by Strings.EncodeRoundTrip |
| Strings.EncodeRoundTrip | components/player/LocalHlsPlayer.tsx:82 | `decodeURIComponent(encodeURIComponent(s)) == s` for every string: each unreserved character is kept and every other character becomes the `%` escapes of its UTF-8 bytes, which decode back to it |
| Strings.DecodeEncodedChar | components/player/LocalHlsPlayer.tsx:82 | one encoded character starts with `%` exactly when it is reserved, and decoding it in front of any text reads just that character |
| Strings.Utf8RoundTrip | components/player/LocalHlsPlayer.tsx:82 | the UTF-8 bytes written for a character announce their own length in the lead byte and decode back to that character, as section 3 of RFC 3629 describes |
| Strings.EncodeConcat | components/player/LocalHlsPlayer.tsx:82 | encoding works character by character: the encoding of a concatenation is the concatenation of the encodings |
| Strings.EncodeUnreservedIdentity | components/player/IframePlayer.tsx:62 | a string of unreserved characters is encoded as itself |
| LocalHlsPlayer.ProxiedUrlIdempotent | components/player/LocalHlsPlayer.tsx:77-85 | proxying an already proxied URL changes nothing |
| LocalHlsPlayer.HandleHlsError | components/player/LocalHlsPlayer.tsx:374-494 | one error event bumps at most one of the three counters; a scheduled `startLoad` or `recoverMediaError` comes only from a fatal event; a switch to the proxy only happens in direct mode |
| LocalHlsPlayer.KeyErrorPolicy | components/player/LocalHlsPlayer.tsx:390-401 | `keyLoadError` and `keyLoadTimeOut` bump the key counter whether or not they are fatal; an error is reported exactly from the sixth on, as a non-retryable `key` error that stops loading, and earlier ones do nothing |
| LocalHlsPlayer.KeyErrorRun | components/player/LocalHlsPlayer.tsx:390-401 | in a run of key errors the j-th is reported exactly when the count passes five, and a report fires the downgrade hook |
| LocalHlsPlayer.ManifestErrorPolicy | components/player/LocalHlsPlayer.tsx:404-434 | `manifestLoadError` without a status in direct mode switches to the proxy; 404 and 403 give a non-retryable `manifest` error; another status, or no status in proxy mode, gives a retryable one; counters are untouched and nothing is scheduled |
| LocalHlsPlayer.FragmentErrorPolicy | components/player/LocalHlsPlayer.tsx:437-447 | `fragLoadError` with 404 is a non-retryable `fragment` error; any other `fragLoadError` is handled by its fatal type, and ignored when not fatal |
| LocalHlsPlayer.NonFatalIgnored | components/player/LocalHlsPlayer.tsx:446-493 | a non-fatal event of any other kind changes neither counters nor state |
| LocalHlsPlayer.NetworkStep | components/player/LocalHlsPlayer.tsx:449-467 | a fatal network error bumps the network counter, schedules `startLoad` after 1000 ms times the new count while it is at most 3, and past that reports a retryable `network` error and stops loading |
| LocalHlsPlayer.MediaStep | components/player/LocalHlsPlayer.tsx:469-483 | a fatal media error bumps the media counter, schedules `recoverMediaError` after 500 ms while it is at most 2, and past that reports a non-retryable `media` error and stops loading |
| LocalHlsPlayer.DeliverCons | components/player/LocalHlsPlayer.tsx:265-279 | each later event sees the counters left by the events before it |
| LocalHlsPlayer.NetworkErrorRun | components/player/LocalHlsPlayer.tsx:449-467 | the j-th fatal network error in a run schedules `startLoad` after 1000·n ms for a count n ≤ 3; from the fourth on it reports a retryable error and stops loading |
| LocalHlsPlayer.NetworkBackoffIncreasing | components/player/LocalHlsPlayer.tsx:459-464 | the network backoff delay strictly increases from one retry to the next |
| LocalHlsPlayer.MediaErrorRun | components/player/LocalHlsPlayer.tsx:469-483 | the first two fatal media errors schedule a recovery after 500 ms; the third is final and fires the downgrade hook |
| LocalHlsPlayer.OtherFatalPolicy | components/player/LocalHlsPlayer.tsx:485-491 | a fatal error of another type is a retryable `unknown` error whose message names the details, or `未知错误` when there are none |
| LocalHlsPlayer.DowngradeCases | components/player/LocalHlsPlayer.tsx:374-494 | the downgrade hook fires exactly for the final key error, a 404/403 manifest error, a missing fragment and the final media error |
| LocalHlsPlayer.ProbeOutcomes | components/player/LocalHlsPlayer.tsx:158-181 | the start-up probe switches to the proxy exactly when the fetch threw a `TypeError` containing "Failed to fetch"; an HTTP response (`expired`) and any other failure (`network`) continue in direct mode |
| LocalHlsPlayer.Player.constructor | components/player/LocalHlsPlayer.tsx:38-55 | the component starts loading, in direct mode, with zero counters and retries, no error, no timers and no engines |
| LocalHlsPlayer.Player.SetPlayerError | components/player/LocalHlsPlayer.tsx:88-98 | once unmounted nothing changes; otherwise the error is set, loading stops and the downgrade hook fires exactly when the error is not retryable |
| LocalHlsPlayer.Player.HandleRetry | components/player/LocalHlsPlayer.tsx:101-108 | clears the error, restarts loading, bumps the retry count and zeroes all three counters; nothing else changes |
| LocalHlsPlayer.Player.CleanupPlayer | components/player/LocalHlsPlayer.tsx:111-141 | cancels every tracked timer and drops both engines, destroying them when they were attached |
| LocalHlsPlayer.Player.Unmount | components/player/LocalHlsPlayer.tsx:359-362 | the effect cleanup marks the component unmounted and cleans up, cancelling the timers and destroying the engines; nothing else changes |
| LocalHlsPlayer.Player.EffectRerun | components/player/LocalHlsPlayer.tsx:144-148 | a re-run of the init effect runs the previous cleanup and is mounted again exactly when the container exists and there is a URL; timers and engines are gone, every other field is kept |
| LocalHlsPlayer.Player.OnCorsProbe | components/player/LocalHlsPlayer.tsx:158-181 | a mounted player that sees a CORS block switches to proxy mode and bumps the retry count without an error; every other result proceeds with the mode unchanged |
| LocalHlsPlayer.Player.Attach | components/player/LocalHlsPlayer.tsx:189-200 | unless the component is still mounted and its container exists nothing changes; otherwise the old instances are cleaned up and both engines attached with no timers pending, and the mode, error, counters, retry count and loading flag stay as they were |
| LocalHlsPlayer.Player.RunEffect | components/player/LocalHlsPlayer.tsx:144-361 | a re-run after a dependency change ends with both engines attached exactly when the guard holds and the direct-mode probe does not switch to the proxy; a switch leaves no engine, proxy mode and a bumped retry count, which makes the next run; otherwise the mode and retry count are kept; the mounted flag is the guard, the timers are gone, the log gains one `destroy` when engines existed, and loading, error, counters and timer ids are kept |
| LocalHlsPlayer.Player.OnReady | components/player/LocalHlsPlayer.tsx:306 | the ready event only ends loading: every other field keeps its value |
| LocalHlsPlayer.Player.OnVideoError | components/player/LocalHlsPlayer.tsx:347-350 | `video:error` is always a non-retryable `media` error: when mounted it sets the error, ends loading and fires the downgrade hook; once unmounted nothing changes; the rest of the state is kept |
| LocalHlsPlayer.Player.OnInitFailed | components/player/LocalHlsPlayer.tsx:351-354 | a failed initialisation is a retryable `unknown` error: when mounted it sets the error and ends loading without a downgrade; once unmounted nothing changes; the rest of the state is kept |
| LocalHlsPlayer.Player.OnHlsError | components/player/LocalHlsPlayer.tsx:374-494 | the engine's error event updates the counters as the policy says and applies its reaction, each with its whole frame: a report sets the error only while mounted and calls `stopLoad` even when not; a scheduled timer takes the next id; a proxy switch bumps the retry count; nothing else, and never the engines or the mounted flag, changes |
| LocalHlsPlayer.Player.FireTimer | components/player/LocalHlsPlayer.tsx:459-481 | a fired timer removes itself and calls `startLoad` or `recoverMediaError` only while the component is mounted and the engine is attached; no other field changes, so the init effect is not re-run |
| IframePlayer.EnabledOnly | components/player/IframePlayer.tsx:40-41 | keeps exactly the enabled players, and never adds any |
| IframePlayer.InsertSorted | components/player/IframePlayer.tsx:42 | inserting by priority keeps a list sorted by priority |
| IframePlayer.InsertMultiset | components/player/IframePlayer.tsx:42 | inserting by priority adds exactly the one element |
| IframePlayer.InsertPriority | components/player/IframePlayer.tsx:42 | inserting an element leaves the order of each priority class as it was, with the new element after the ones it already holds |
| IframePlayer.SortByPriorityCorrect | components/player/IframePlayer.tsx:42 | the comparator sort by ascending priority gives a sorted permutation that, like the stable `Array.prototype.sort`, keeps the configuration order among equal priorities |
| IframePlayer.SortByPriority | components/player/IframePlayer.tsx:42 | the priority sort is a permutation of its input |
| IframePlayer.CandidatesShape | components/player/IframePlayer.tsx:39-58 | the candidate list is the source's own player first exactly when the source has a play URL (priority 0, timeout 10000, enabled), then every enabled configured player once, sorted by priority with ties in configuration order |
| IframePlayer.Candidates | components/player/IframePlayer.tsx:39-58 | the candidates are the enabled players plus, first, the source's own player exactly when it has a play URL |
| IframePlayer.PlayerUrl | components/player/IframePlayer.tsx:60-62 | without a candidate at the index the URL is `''`; otherwise it is the candidate's URL followed by the encoded video URL |
| IframePlayer.PlainVideoUrlAppended | components/player/IframePlayer.tsx:60-62 | a video URL made of unreserved characters is appended as it is |
| IframePlayer.JsRem | components/player/IframePlayer.tsx:101 | JavaScript's `%` with a positive divisor: the usual remainder for a non-negative index, and a non-positive one for a negative index |
| IframePlayer.TryNext | components/player/IframePlayer.tsx:92-109 | giving up sets the error and ends loading; with an external index the internal index never moves; each call counts at most one more load |
| IframePlayer.Retry | components/player/IframePlayer.tsx:142-150 | retry clears the error, zeroes the attempts and restarts loading; the internal index goes back to 0 only without an external index |
| IframePlayer.ExternalIndexReset | components/player/IframePlayer.tsx:153-159 | a supplied external index resets loading, error and attempts and keeps everything else; without one nothing changes |
| IframePlayer.RetryIdempotent | components/player/IframePlayer.tsx:142-150 | retrying twice gives the state of retrying once |
| IframePlayer.TriesFromReset | components/player/IframePlayer.tsx:92-109 | per mounted instance: from a reset chain the k-th consecutive switch gives up exactly when k reaches min(n, 3); till then each switch counts one more load; an external index is never changed |
| IframePlayer.LoadsBounded | components/player/IframePlayer.tsx:93-95 | per mounted instance: with at least one candidate, at most min(n, 3) loads happen before the error |
| IframePlayer.InternalVisitsInOrder | components/player/IframePlayer.tsx:101-105 | without an external index the chain visits candidates 0, 1, 2, … in order until it gives up |
| IframePlayer.GiveUpReportsCap | components/player/IframePlayer.tsx:93-98 | once the chain gives up, the panel reports that min(n, 3) candidates were tried |
| IframePlayer.PendingTimeout | components/player/IframePlayer.tsx:112-124 | a timeout is armed exactly while loading, without an error, with a current player |
| IframePlayer.TimeoutAfterTransitions | components/player/IframePlayer.tsx:112-124 | after a retry the first candidate's timeout is armed; after giving up none is; after an external index change that player's timeout is armed |
| IframePlayer.HealthPolls | components/player/IframePlayer.tsx:65-89 | the number of ticks lies between where counting started and the number of observations |
| IframePlayer.HealthPollsBounded | components/player/IframePlayer.tsx:65-89 | the health check stops after at most 21 ticks, or on the first tick that sees a content window, and no earlier tick saw one |
| IframePlayer.Player.constructor | components/player/IframePlayer.tsx:26-58 | the player starts on the computed candidate list at index 0, loading, with no error and no attempts |
| IframePlayer.Player.TryNextPlayer | components/player/IframePlayer.tsx:92-109 | the chain moves as TryNext says, and the new index is reported through `onPlayerSwitch` unless the chain gave up |
| IframePlayer.Player.OnTimeout | components/player/IframePlayer.tsx:112-124 | a timeout switches to the next player, and reports that switch, only when one was armed; otherwise nothing changes |
| IframePlayer.Player.RetryAll | components/player/IframePlayer.tsx:142-150 | retry resets the chain and reports index 0 |
| IframePlayer.Player.SetExternalIndex | components/player/IframePlayer.tsx:153-159 | a changed external index resets the chain; the same index changes nothing |
| IframePlayer.Player.OnIframeLoaded | components/player/IframePlayer.tsx:127-134 | a loaded frame ends loading, which disarms the timeout |
| IframePlayer.Player.HealthCheck | components/player/IframePlayer.tsx:65-89 | the polling loop runs at most 21 ticks and ends loading exactly when it sees a content window |
| IframePlayer.Player.Render | components/player/IframePlayer.tsx:183-249 | "no player" is shown exactly when the index names no candidate; the frame and the error panel never show together; the panel shows exactly on error and the overlay exactly while loading |
| UnifiedPlayer.AnyEnabled | components/player/UnifiedPlayer.tsx:12 | true exactly when some configured iframe player is enabled |
| UnifiedPlayer.SelectBestPlayerMode | components/player/UnifiedPlayer.tsx:10-35 | proxy enabled and `MediaSource` present gives `local`; otherwise `iframe` exactly when some iframe player is enabled, and `local` as the last resort |
| UnifiedPlayer.LocalOnlyWhenUsableOrNoAlternative | components/player/UnifiedPlayer.tsx:21-34 | automatic selection picks `local` exactly when it can play (proxy and `MediaSource`) or no iframe player is enabled |
| UnifiedPlayer.LoadedMode | components/player/UnifiedPlayer.tsx:145-182 | the external mode wins whenever a mode is set; an accepted config (code 200 with data) gives `auto`'s selection or the configured mode; a failed fetch gives the external mode or `iframe`; any other reply sets no mode |
| UnifiedPlayer.Downgrade | components/player/UnifiedPlayer.tsx:229-237 | `local` becomes `iframe`, anything else stays, and the result is never `local` |
| UnifiedPlayer.DowngradeIdempotent | components/player/UnifiedPlayer.tsx:229-237 | downgrading twice is downgrading once |
| UnifiedPlayer.InterpretParse | components/player/UnifiedPlayer.tsx:116-130 | a parse answer is accepted exactly when its code is 200 and it carries a URL; otherwise the error is `msg`, else `data.error`, else `视频解析失败`, and a failed request gives the network message |
| UnifiedPlayer.Front.constructor | components/player/UnifiedPlayer.tsx:58-67 | the front starts loading the config, with no mode, no parsed URL, no parse error and nothing recorded |
| UnifiedPlayer.Front.SetMode | components/player/UnifiedPlayer.tsx:59 | `setCurrentMode` sets the mode and records it when it changes; nothing else changes |
| UnifiedPlayer.Front.BeginParse | components/player/UnifiedPlayer.tsx:86-103 | the parse error is cleared; an unchanged URL is not resolved again; without a parse proxy the video URL is used at once; otherwise parsing starts and the proxy is asked |
| UnifiedPlayer.Front.FinishParse | components/player/UnifiedPlayer.tsx:114-135 | once unmounted nothing changes; otherwise parsing ends and an accepted answer sets the resolved URL, while a rejected one sets the parse error and leaves the URL unresolved |
| UnifiedPlayer.Front.ChangeVideo | components/player/UnifiedPlayer.tsx:86-139 | a new video URL re-runs the parse step: the proxy is asked, and parsing starts, exactly when the URL differs from the last one parsed and the source has a parse proxy; without a proxy the URL itself becomes the parsed and last-parsed URL; the mode state is kept |
| UnifiedPlayer.Front.ParseRetryClicked | components/player/UnifiedPlayer.tsx:287-296 | the parse-error retry button clears the error, the resolved URL and the last parsed URL, and starts nothing else |
| UnifiedPlayer.Front.LoadConfig | components/player/UnifiedPlayer.tsx:145-182 | once unmounted nothing changes; otherwise loading ends, an accepted config is stored and the mode becomes what LoadedMode says, recorded in the mode history when it changes |
| UnifiedPlayer.Front.ModeEffect | components/player/UnifiedPlayer.tsx:185-226 | on a new external mode with a different mode showing, the mode is first cleared and the new one is queued on the 100 ms timer; with no mode showing it is set at once; a settled front is left alone |
| UnifiedPlayer.Front.Settle | components/player/UnifiedPlayer.tsx:185-226 | re-running the effect until it changes nothing ends with the external mode shown, passing through "no mode" when another mode was showing |
| UnifiedPlayer.Front.FireSwitchTimer | components/player/UnifiedPlayer.tsx:204-210 | the switch timer sets the queued mode and records it in the mode history, only while mounted; nothing else changes |
| UnifiedPlayer.Front.SetExternalMode | components/player/UnifiedPlayer.tsx:185-226 | a changed external mode while a different mode is showing gives the mode sequence "none, then the new mode"; from no mode it is set directly; either way it becomes the recorded mode; an unchanged one changes no mode, history or recorded mode; loading, parsing and the mounted flag are always kept |
| UnifiedPlayer.Front.OnPlayerError | components/player/UnifiedPlayer.tsx:229-237 | the native player's final error downgrades `local` to `iframe`, and the downgrade sticks once the external mode is recorded; before that the mode effect puts the external mode back; either way the mode history is stated and the config, loading, parse fields and mounted flag are kept |
| UnifiedPlayer.Front.Unmount | components/player/UnifiedPlayer.tsx:220-225 | unmounting clears the mounted flag and the mode effect's cleanup cancels a pending switch timer; every other field stays |
| UnifiedPlayer.Front.Render | components/player/UnifiedPlayer.tsx:244-345 | a player is shown only once the config is loaded, a mode is set, there is no parse error, parsing is over and a URL is resolved; the iframe player is shown exactly in `iframe` mode and the native one exactly in `local` mode, so at most one is shown |
| CorsCheck.CheckCorsSupport | lib/player/cors-check.ts:10-37 | an OK response is success; a non-OK response is `expired` carrying its status; a thrown `TypeError` whose message contains "Failed to fetch" is `cors`; every other thrown value is `network`; exactly one of the four holds |
| CorsCheck.AbortIsNetworkFailure | lib/player/cors-check.ts:12-35 | a probe cut off by its 3000 ms abort timer is reported as `network` |
| AdminGate.Proxy | proxy.ts:4-19 | a path outside `/admin` always goes through; under `/admin` the request goes through exactly when the `admin_session` cookie is `authenticated`, and is otherwise redirected to `/login` with `redirect` set to the path |
| AdminGate.Middleware | proxy.ts:4-23 | with the `/admin/:path*` matcher in front, a request is redirected exactly when the matcher applies and the session is not authenticated |
| AdminGate.MatchedPathsAreGated | proxy.ts:21-23 | every path the matcher admits starts with `/admin`, so the gate's own test applies to it |
| TtlCache.Lifetime | lib/cache.ts:29-30 | the lifetime in seconds `set` uses: a non-zero ttl as given; an omitted ttl gives the cache default (lib/cache.ts) or 3600 (lib/redis.ts); a zero ttl gives the default in lib/cache.ts and 0 in lib/redis.ts |
| TtlCache.Stored | lib/cache.ts:29-35 | the stored entry keeps the value and expires the lifetime times 1000 ms after `now` |
| TtlCache.Lookup | lib/cache.ts:17-27 | `get` returns the stored value exactly when the key is present and `now <= expireAt`, and null otherwise |
| TtlCache.AfterGet | lib/cache.ts:20-23 | `get` on an expired key removes that key and nothing else; otherwise it removes nothing |
| TtlCache.TtlOf | lib/cache.ts:59-64 | `ttl` is −2 exactly for a missing key, −1 exactly when less than one second remains, and otherwise the whole seconds remaining; it is never 0 |
| TtlCache.WithoutMatching | lib/cache.ts:47-57 | the map after `delPattern` holds exactly the keys that do not match, with their entries unchanged |
| TtlCache.SweepStep | lib/cache.ts:50-55 | one step of the delete loop keeps its invariant: the removed keys are the matching keys already visited and the count is their number |
| TtlCache.SweepDone | lib/cache.ts:56 | when every key has been visited the map and the count are the final ones |
| TtlCache.RegexSource | lib/cache.ts:48 | `pattern.replace("*", ".*")` widens only the first `*`: a pattern without `*` is unchanged and one with `*` grows by one character |
| TtlCache.MemoryCache.constructor | lib/cache.ts:12-15 | a new cache is empty and keeps its ttl policy |
| TtlCache.MemoryCache.Get | lib/cache.ts:17-27 | returns what Lookup says and evicts as AfterGet says |
| TtlCache.MemoryCache.Set | lib/cache.ts:29-35 | always returns true and overwrites the key's entry with the stored entry |
| TtlCache.MemoryCache.Del | lib/cache.ts:37-39 | returns whether the key was present and removes only that key |
| TtlCache.MemoryCache.Exists | lib/cache.ts:41-45 | true exactly when the key is present and not expired; nothing is removed |
| TtlCache.MemoryCache.DelPattern | lib/cache.ts:47-57 | removes exactly the matching keys and returns how many it removed |
| TtlCache.MemoryCache.Ttl | lib/cache.ts:59-64 | returns TtlOf and changes nothing |
| TtlCache.GetAfterSet | lib/cache.ts:17-35 | a `get` after `set`, with no write in between and before the entry expires, returns the value and evicts nothing |
| TtlCache.SetIsolated | lib/cache.ts:29-35 | writing one key changes neither `get` nor `ttl` of any other key |
| TtlCache.TtlAfterSet | lib/cache.ts:59-64 | right after a `set` with a positive lifetime, `ttl` reports exactly that lifetime |
| TtlCache.ZeroTtlExpiresAtOnce | lib/redis.ts:172-177 | in lib/redis.ts a ttl of 0 stores an entry that expires at the instant it is written, while lib/cache.ts gives it the default hour |
| TtlCache.LiveAndTtl | lib/cache.ts:59-64 | a live key never reports −2, and a present but expired one reports −1 |
| Cache.PolicyFor | lib/cache.ts:12-15 | `new MemoryCache(ttl)` uses `ttl || default`, with 3600 when the argument is omitted |
| Cache.CreateCache | lib/cache.ts:70-72 | `createCache` builds an empty cache with that policy |
| Cache.FalsyTtlMeansDefault | lib/cache.ts:29-30 | a `set` with an omitted or zero ttl uses the cache's default lifetime |
| Cache.ZeroDefaultExpiresAtOnce | lib/cache.ts:12-32 | a cache built with a default of 0 stores entries with no explicit ttl as already expiring at `now` |
| Redis.ReconnectDelay | lib/redis.ts:19-22 | the reconnect delay is `min(50·times, 2000)`: at most both, equal to one of them, and 2000 from the 40th attempt on |
| Redis.ReconnectDelayMonotone | lib/redis.ts:19-22 | the delay never shrinks as the attempt count grows |
| Redis.SomeContained | lib/redis.ts:25 | `targets.some(t => message.includes(t))` is true exactly when some target occurs in the message |
| Redis.ReconnectOnErrorCases | lib/redis.ts:23-26 | a reconnect is asked for exactly when the message contains `READONLY`, `ECONNRESET` or `ETIMEDOUT` |
| Redis.CreateFallbackCache | lib/redis.ts:153-158 | without a Redis URL, `createCache` returns an empty in-memory cache whose `set` defaults only an omitted ttl |
| DoubanClient.TrimAll | lib/douban-client.ts:12 | `.map(url => url.trim())`: same length, each piece trimmed |
| DoubanClient.ProxyList | lib/douban-client.ts:10-13 | a proxy is listed exactly when it is a non-empty trimmed piece of the comma-split environment value |
| DoubanClient.ProxyListCons | lib/douban-client.ts:10-13 | the proxies keep the order of the pieces: the first trimmed piece comes first unless blank, then the proxies of the rest |
| DoubanClient.ProxyEntriesClean | lib/douban-client.ts:10-13 | every listed proxy is non-empty, holds no comma and has no white space at either end |
| DoubanClient.ContainedCharSurvivesTrim | lib/douban-client.ts:12 | trimming never brings in a character the piece did not hold |
| DoubanClient.UnsetEnvNoProxy | lib/douban-client.ts:10-17 | an unset `DOUBAN_API_PROXY` gives no proxies |
| DoubanClient.RandomProxy | lib/douban-client.ts:16-19 | no proxy exactly when the list is empty; otherwise the pick is a listed proxy (the random draw is an input) |
| DoubanClient.GetProxyStatus | lib/douban-client.ts:280-286 | the status is enabled exactly when there is a proxy, and its count and URLs are the proxy list |
| DoubanClient.ConvertToProxyUrl | lib/douban-client.ts:72-89 | the URL is rewritten exactly when a proxy is picked, the URL parses and its host contains `douban.com`, and then it is the proxy followed by the path and the query; otherwise the original URL comes back with no proxy |
| DoubanClient.NoProxiesNoRewrite | lib/douban-client.ts:72-74 | without configured proxies no URL is ever rewritten |
| DoubanClient.Resolve | lib/douban-client.ts:43-47 | options not given take the defaults: timeout 10000 ms, 3 attempts, 1000 ms base delay; given ones override them |
| DoubanClient.RunFacts | lib/douban-client.ts:107-155 | at most `retries` attempts; the first response that is not a 403 or 429 is returned as it is, whatever its status; after each failed attempt k but the last the loop waits retryDelay·2^(k−1); when every attempt fails, the last error is thrown, and with no attempt at all the generic message |
| DoubanClient.DefaultSchedule | lib/douban-client.ts:107-155 | with default options there are one to three attempts, waiting 1000 ms and then 2000 ms |
| DoubanClient.FirstResponseReturned | lib/douban-client.ts:121-141 | a first answer that is not rate limited is returned at once, with no wait |
| DoubanClient.DoubanFetch | lib/douban-client.ts:95-156 | the retry loop computes exactly the result, waits and attempt count that RunFacts describes |
| DoubanClient.StrictCall | lib/douban-client.ts:173-194 | the search and abstract calls give the parsed body exactly for a 2xx response whose body parses; any other status throws `HTTP status: text`, and a thrown fetch or a body that does not parse rejects with its error |
| DoubanClient.SuggestCall | lib/douban-client.ts:212-228 | as written, the suggest call gives `[]` for a thrown fetch or a non-2xx status and the body for a 2xx reply that parses, but rejects with the parse error when the body does not parse, because the unawaited `response.json()` escapes the `catch` |
| DoubanClient.NewMoviesCall | lib/douban-client.ts:233-244 | the new-movies call succeeds exactly on a 2xx response whose body parses, with `data` when present and `[]` when it is missing |
| DoubanClient.SuggestSwallowsWhatSearchThrows | lib/douban-client.ts:212-228 | where the strict calls throw over the transport or the status, the suggest call returns `[]`; where they succeed, it returns the same body; on a body that does not parse both reject with the same error |
| DoubanClient.SuggestCallAwaited | lib/douban-client.ts:222-227 | with the body awaited inside the `try`, the suggest call returns the body for a 2xx reply that parses and `[]` for every failure, and agrees with the as-written call wherever that one does not reject |
| DoubanClient.AwaitedSwallowsWhatSearchThrows | lib/douban-client.ts:222-227 | awaited, the suggest call answers `[]` wherever the strict calls throw, and the same body where they succeed |
| DoubanClient.SuggestUrl | lib/douban-client.ts:213 | the suggest request always goes to the fixed `subject_suggest` endpoint, with the encoded query after `?q=` |
| DoubanClient.SearchParams | lib/douban-client.ts:167-171 | the four search parameters in order: `type` and `tag` as given; `page_limit` and `page_start` as given when non-zero, and 20 and 0 when omitted or 0 |
| TitleUtils.CharCodeAt0 | lib/utils/title-utils.ts:19 | `charCodeAt(0)` of one code point: the code point itself within the BMP, and a high surrogate for an astral character |
| TitleUtils.GetCharType | lib/utils/title-utils.ts:18-43 | each class holds exactly for its listed ranges (Chinese 4E00–9FFF and 3400–4DBF, Japanese 3040–30FF, Korean AC00–D7AF and 1100–11FF, ASCII letters, ASCII digits); `' '` and U+3000 are spaces; anything else, including every astral character, is a symbol |
| TitleUtils.Utf16Len | lib/utils/title-utils.ts:105-112 | `.length` counts UTF-16 code units, never fewer than the code points |
| TitleUtils.CountsPositive | lib/utils/title-utils.ts:55-66 | each counter of the loop is positive exactly when a character of its class occurs |
| TitleUtils.Max4 | lib/utils/title-utils.ts:69 | `Math.max` of the four counts is one of them and bounds all of them |
| TitleUtils.AnalysisOf | lib/utils/title-utils.ts:68-84 | each flag says its count is positive; the primary language is mixed exactly when every count is 0, and otherwise the first of Chinese, Japanese, Korean and English whose count is the maximum |
| TitleUtils.AnalyzeTitle | lib/utils/title-utils.ts:48-85 | the counting loop and the primary-language choice compute exactly AnalysisOf of the counts |
| TitleUtils.AnalysisFlags | lib/utils/title-utils.ts:48-85 | the analysis's flags say exactly which classes occur in the title |
| TitleUtils.RemoveChars | lib/utils/title-utils.ts:152 | a global one-class `replace(…, '')` keeps only characters of the input outside the class, and changes nothing when none is in it |
| TitleUtils.RemoveCharsConcat | lib/utils/title-utils.ts:152 | removing characters works piecewise over a concatenation |
| TitleUtils.RemoveCharsIdempotent | lib/utils/title-utils.ts:152 | removing the same class twice is removing it once |
| TitleUtils.RemoveYears | lib/utils/title-utils.ts:155 | removing year markers never makes the title longer |
| TitleUtils.TrailingYearRemoved | lib/utils/title-utils.ts:155 | a trailing ` (dddd)` is removed together with the white space before it |
| TitleUtils.SpacesThenYear | lib/utils/title-utils.ts:155 | a title that is only white space and a year marker becomes empty |
| TitleUtils.SplitSpaces | lib/utils/title-utils.ts:93 | `split(/\s+/)` always gives at least one part |
| TitleUtils.SplitSpacesClean | lib/utils/title-utils.ts:93 | no part holds white space |
| TitleUtils.FirstPureHan | lib/utils/title-utils.ts:95-108 | the first loop returns the first part with no kana that holds a Han character and is at least two code units long, and skips every earlier part |
| TitleUtils.FirstHan | lib/utils/title-utils.ts:111-115 | the second loop returns the first part holding a Han character and at least two code units long |
| TitleUtils.ExtractChinese | lib/utils/title-utils.ts:91-118 | the two loops compute exactly the first kana-free Han part, else the first Han part, else `''` |
| TitleUtils.ChineseOfFacts | lib/utils/title-utils.ts:91-118 | the result is `''` exactly when no part qualifies; otherwise it is one of the parts, and it is kana-free whenever some qualifying part is |
| TitleUtils.EnglishMatches | lib/utils/title-utils.ts:125 | every match of `[A-Za-z][A-Za-z0-9\s:\-']+` is at least two characters long and starts with an ASCII letter |
| TitleUtils.LongestIsLastLongest | lib/utils/title-utils.ts:129 | the `reduce` keeps a longest match, the last of several equally long ones, and its start value only when every match is shorter |
| TitleUtils.ExtractEnglish | lib/utils/title-utils.ts:126 | no match gives `''` |
| TitleUtils.ExtractEnglishLongest | lib/utils/title-utils.ts:123-130 | otherwise the result is the trimmed longest match, the last one on ties |
| TitleUtils.CutSubtitle | lib/utils/title-utils.ts:184-187 | the subtitle cut either keeps the title or keeps the part before the first `：`, `:`, `—` or `-`, when that part is at least two code units long |
| TitleUtils.DropTrailingDigits | lib/utils/title-utils.ts:193 | `replace(/\d+$/g, '')` leaves a prefix that does not end in a digit and drops only digits |
| TitleUtils.CollapseSpaces | lib/utils/title-utils.ts:198 | after collapsing, every white space character left is a plain space |
| TitleUtils.DropEdgeStart | lib/utils/title-utils.ts:199 | no leading space, colon, middle dot or dash is left |
| TitleUtils.DropEdgeEnd | lib/utils/title-utils.ts:199 | no trailing space, colon, middle dot or dash is left, and the result is a prefix |
| TitleUtils.Tidy | lib/utils/title-utils.ts:197-200 | the step 6 clean-up leaves no space, colon, middle dot or dash at either end |
| TitleUtils.Finish | lib/utils/title-utils.ts:180-202 | for a non-empty title the result is never empty, because it falls back to the original; a result that differs from the title is tidy at both ends |
| TitleUtils.CleanTitle | lib/utils/title-utils.ts:139-203 | the result is `''` exactly for `''`; a result other than the title itself has no edge punctuation |
| TitleUtils.CleanTitleForSearch | lib/utils/title-utils.ts:139-203 | the step-by-step clean-up computes exactly CleanTitle |
| TitleUtils.CleanTitleShape | lib/utils/title-utils.ts:149-202 | a non-empty title always gives a non-empty result: the title itself or its cleaned form |
| TitleUtils.Dedup | lib/utils/title-utils.ts:238 | `[...new Set(s)]` has no duplicates, holds exactly the elements of `s`, and keeps the first one first |
| TitleUtils.PushVariants | lib/utils/title-utils.ts:210-235 | the pushing steps compute exactly the guarded list of variants |
| TitleUtils.GenerateSearchVariants | lib/utils/title-utils.ts:209-239 | the result is the de-duplicated list of pushed variants |
| TitleUtils.PushesFacts | lib/utils/title-utils.ts:213-235 | nothing empty is pushed, and a non-empty main title is pushed first |
| TitleUtils.VariantsFacts | lib/utils/title-utils.ts:209-239 | the variants have no duplicates and no empty string; they are `[]` exactly for `''`; otherwise the first is `cleanTitleForSearch(title)` |
| TitleUtils.RemoveCharsNoUpper | lib/utils/title-utils.ts:245-249 | removing characters keeps a lower-cased string lower-cased |
| TitleUtils.NormalizeTitle | lib/utils/title-utils.ts:244-251 | the normal form holds no white space, none of the listed punctuation, no format character and no upper-case ASCII letter |
| TitleUtils.LowerNoop | lib/utils/title-utils.ts:246 | lower-casing a string without upper-case letters changes nothing |
| TitleUtils.NormalizeIdempotent | lib/utils/title-utils.ts:244-251 | normalising twice is normalising once |
| TitleUtils.SubsetCard | lib/utils/title-utils.ts:266-269 | the intersection is never larger than the union |
| TitleUtils.RatioBound | lib/utils/title-utils.ts:269 | the overlap ratio lies in [0, 1] |
| TitleUtils.SimilarityFacts | lib/utils/title-utils.ts:256-270 | the similarity is symmetric and lies in [0, 1]; when the normal forms neither equal nor contain each other both are non-empty, so the ratio never divides by zero |
| TitleUtils.Similarity | lib/utils/title-utils.ts:256-270 | the title similarity lies in [0, 1], does not depend on the order of the titles, and is 1 for titles with the same normal form |
| MatchVod.Substring0 | app/api/douban/match-vod/route.ts:67 | `substring(0, 3)` counts UTF-16 code units: the result is a prefix of whole characters of the name plus, when the cut falls inside a character beyond U+FFFF, that character's high surrogate; together they are three units long, or the whole name when it is shorter |
| MatchVod.Substring0Bmp | app/api/douban/match-vod/route.ts:67 | without characters beyond U+FFFF the prefix is the first three characters, or the whole name |
| MatchVod.AstralPrefixes | app/api/douban/match-vod/route.ts:67 | a character beyond U+FFFF takes two of the three units: "𠀀ab" gives "𠀀a", and "ab𠀀" gives "ab" and a lone high surrogate |
| MatchVod.Find | app/api/douban/match-vod/route.ts:55-69 | `list.find` returns the first index where the rule holds, and nothing only when it holds nowhere |
| MatchVod.SelectMember | app/api/douban/match-vod/route.ts:52-74 | the selected item is one of the list's, and nothing is selected exactly for an empty list |
| MatchVod.SelectChain | app/api/douban/match-vod/route.ts:52-74 | the chain takes the first exact name; failing that, the first name that contains or is contained in the title; failing that, when the year is truthy, the first prefix-and-year match; failing all three, the first item |
| MatchVod.MatchSingleSource | app/api/douban/match-vod/route.ts:21-80 | a source yields an item exactly when its reply has code 200 and a non-empty list, and then the item comes from that list; a thrown request yields nothing |
| MatchVod.MatchConfidence | app/api/douban/match-vod/route.ts:83-87 | high exactly for equal names, medium exactly for containment either way between different names, low exactly when neither name contains the other |
| MatchVod.SelectedConfidence | app/api/douban/match-vod/route.ts:52-61 | an item chosen by the exact rule is rated high, and one chosen by the containment rule is rated medium |
| MatchVod.Successful | app/api/douban/match-vod/route.ts:117-142 | no more matches than sources |
| MatchVod.SuccessfulConcat | app/api/douban/match-vod/route.ts:117-142 | the matches of a split source list are the matches of its parts, in order |
| MatchVod.FailedSourceContributesNothing | app/api/douban/match-vod/route.ts:131-142 | removing a source that matched nothing leaves the matches unchanged |
| MatchVod.MatchesComeFromAnswers | app/api/douban/match-vod/route.ts:117-142 | every match names a source whose reply had code 200 and a list |
| MatchVod.OfConfidence | app/api/douban/match-vod/route.ts:146-151 | the slice of one confidence holds only matches of that confidence |
| MatchVod.SortedRanked | app/api/douban/match-vod/route.ts:146-151 | the sorted matches run from high to medium to low |
| MatchVod.SplitByConfidence | app/api/douban/match-vod/route.ts:146-151 | the three confidence slices together hold exactly the matches |
| MatchVod.SortedPermutation | app/api/douban/match-vod/route.ts:146-151 | sorting is a permutation of the matches |
| MatchVod.OfConfidenceOther | app/api/douban/match-vod/route.ts:146-151 | a slice of one confidence has nothing of another |
| MatchVod.OfConfidenceSame | app/api/douban/match-vod/route.ts:146-151 | slicing a slice by its own confidence changes nothing |
| MatchVod.OfConfidenceConcat | app/api/douban/match-vod/route.ts:146-151 | slicing works piecewise over a concatenation |
| MatchVod.SortedStable | app/api/douban/match-vod/route.ts:146-151 | sorting is stable: matches of equal confidence keep their source order |
| MatchVod.PostResponses | app/api/douban/match-vod/route.ts:90-191 | a missing or empty title is 400 with no data; no sources is 404; a body that fails to parse is 500; no match is status 200 with code 404 and no matches; otherwise 200 with the ranked matches of the matching sources, counted and bounded by the number of sources |
| MatchVod.Post | app/api/douban/match-vod/route.ts:90-191 | the reply carries data exactly when its HTTP status is 200, and its code equals the status except for the 200 reply with code 404 that reports no match |
| DramaDetail.SplitPartChars | app/api/drama/detail/route.ts:75-78 | every character of a `split` piece comes from the split string |
| DramaDetail.FirstM3u8 | app/api/drama/detail/route.ts:69 | `sources.find(s => s.includes('.m3u8'))` gives the first source holding `.m3u8`, and nothing only when none does |
| DramaDetail.TargetChoice | app/api/drama/detail/route.ts:66-72 | the chosen play source is a non-empty `$$$` piece; it is the first piece holding `.m3u8` when there is one and the first piece otherwise; there is none exactly when every piece is empty |
| DramaDetail.ParseEpisodes | app/api/drama/detail/route.ts:59-89 | the loop over the `#` pieces pushes exactly the reference list of episodes |
| DramaDetail.EpisodesOfConcat | app/api/drama/detail/route.ts:77-82 | each piece contributes its own episodes, in order |
| DramaDetail.EpisodeOfClean | app/api/drama/detail/route.ts:78-80 | an episode taken from a piece without `#` has a non-empty name and url, neither holding `#` or `$` |
| DramaDetail.EpisodesOfClean | app/api/drama/detail/route.ts:75-82 | every episode is clean, and there are no more episodes than pieces |
| DramaDetail.EpisodesClean | app/api/drama/detail/route.ts:59-89 | an empty play url has no episodes; every episode is clean, and there are no more than the `#` pieces of the chosen source |
| DramaDetail.OrElse | app/api/drama/detail/route.ts:41-53 | `s \|\| fallback` keeps a non-empty string and replaces the empty one |
| DramaDetail.FormatDramaDetail | app/api/drama/detail/route.ts:40-56 | id, name, picture, remarks, actor, director, area and year come from the item and the blurb from its content; a present type and score are passed through, a missing type becomes 影视 and a missing score 0.0, so neither is ever empty; the episodes are parsed from the play url and are all clean |
| DramaDetail.DigitRun | app/api/drama/detail/route.ts:167 | the digit run that `parseInt` reads is maximal |
| DramaDetail.NatToStringValue | app/api/drama/detail/route.ts:167 | the decimal digits of a natural number have that number as their value |
| DramaDetail.NoLeadingSpace | app/api/drama/detail/route.ts:167 | `parseInt` skips nothing before a digit or a minus sign |
| DramaDetail.ParseDigits | app/api/drama/detail/route.ts:167 | a string of digits parses to its value |
| DramaDetail.ParseNegativeDigits | app/api/drama/detail/route.ts:167 | a minus sign followed by digits parses to the negated value |
| DramaDetail.SignedNegative | app/api/drama/detail/route.ts:167 | the signed part of `parseInt` negates after a minus sign |
| DramaDetail.ParseIntRoundTrip | app/api/drama/detail/route.ts:167-168 | `parseInt(String(n))` is `n` for every integer, so an id written in decimal finds its item |
| DramaDetail.DigitRunAll | app/api/drama/detail/route.ts:167 | in a string of digits the run covers the whole string |
| DramaDetail.PickItem | app/api/drama/detail/route.ts:167-168 | the item is one of the proxy's list: the first whose id is `parseInt(ids)` when there is one, else the first item |
| DramaDetail.FirstWithId | app/api/drama/detail/route.ts:168 | `find(d => d.vod_id === id)` gives the fallback exactly when no item has that id, and otherwise the first item that has it |
| DramaDetail.RefusedBeforeParsing | app/api/drama/detail/route.ts:145-148 | an XML page, an HTML page or an unauthorised-domain notice is rejected with 源API访问失败 whatever parsing would give |
| DramaDetail.PostOutcomes | app/api/drama/detail/route.ts:97-199 | every failure is a 500, except the 404 for an empty or unsuccessful proxy result, which happens only in the proxy branch; a success needs an ok, unrefused, parseable reply, and carries in the proxy branch the formatted detail of an item of the proxy list and otherwise that of the first item of a standard reply with code 1 |
| DramaDetail.Post | app/api/drama/detail/route.ts:97-199 | every failure of the route is a 500 or a 404, and a success needs a readable request, an answered fetch and a parsed reply |
| DramaDetail.CatchReply | app/api/drama/detail/route.ts:189-198 | as written, the `catch` answers 请求超时，请稍后重试 exactly for an error named "AbortError" and 获取影视详情失败 for every other error, both with status 500 |
| DramaDetail.TimeoutAnsweredAsFailure | app/api/drama/detail/route.ts:118-133 | as written, the 15-second `AbortSignal.timeout` on either request rejects with a "TimeoutError", which the route answers with 获取影视详情失败; only an "AbortError" would get the timeout message |
| DramaDetail.CatchReplyIntended | app/api/drama/detail/route.ts:191-194 | the intended `catch` answers the timeout message for an "AbortError" and for a "TimeoutError", and otherwise as written |
| DramaDetail.PostIntended | app/api/drama/detail/route.ts:97-199 | with the intended `catch` a timed-out request is answered 请求超时，请稍后重试, and every other input as the route as written answers it |
| VodSourcesTab.WithoutKey | components/admin/VodSourcesTab.tsx:144 | `filter(s => s.key !== key)` keeps exactly the sources with another key and never grows the list |
| VodSourcesTab.WithoutKeyConcat | components/admin/VodSourcesTab.tsx:144 | filtering works piecewise over a concatenation |
| VodSourcesTab.WithoutAbsentKey | components/admin/VodSourcesTab.tsx:144 | deleting a key no source has leaves the list unchanged |
| VodSourcesTab.SelectionAfterDelete | components/admin/VodSourcesTab.tsx:145-148 | the selection changes only when the selected source itself is deleted and others remain, and then moves to the first remaining source |
| VodSourcesTab.DeleteKeepsSelectionValid | components/admin/VodSourcesTab.tsx:144-148 | after a delete that leaves sources, the selection names a remaining source whenever it named a source before |
| VodSourcesTab.AddSource | components/admin/VodSourcesTab.tsx:189-194 | adding is refused exactly when the key is taken; otherwise the form is appended and the old sources are kept in front |
| VodSourcesTab.ReplaceKey | components/admin/VodSourcesTab.tsx:196-198 | `map` keeps the length and replaces exactly the entries whose key is the edited source's key |
| VodSourcesTab.EditFacts | components/admin/VodSourcesTab.tsx:196-198 | since the key field is disabled while editing, saving an edit touches only the entries with the edited key, keeps every key in its place and puts the form in the list when the key is present |
| VodSourcesTab.Tab.constructor | components/admin/VodSourcesTab.tsx:25-42 | the initial form is the empty source; no edit, no add mode, no preview, no error, the import dialog closed |
| VodSourcesTab.Tab.Edit | components/admin/VodSourcesTab.tsx:131-135 | the form is a copy of the source, which becomes the one being edited, and add mode is off |
| VodSourcesTab.Tab.ChangeKey | components/admin/VodSourcesTab.tsx:299-303 | typing a key changes the form only in add mode |
| VodSourcesTab.Tab.ChangeFields | components/admin/VodSourcesTab.tsx:313-380 | the other inputs change every field of the form but its key |
| VodSourcesTab.Tab.Cancel | components/admin/VodSourcesTab.tsx:229-232 | no source is being edited and add mode is off; nothing else changes |
| VodSourcesTab.Tab.Save | components/admin/VodSourcesTab.tsx:180-227 | an incomplete form gives a warning and a taken key in add mode an error, both before any request; otherwise a 200 answer stores the appended or replaced list, ends editing and reports success, and any other answer or a failed request keeps the list and reports the server's message or 保存失败; the selection never changes |
| VodSourcesTab.Tab.Delete | components/admin/VodSourcesTab.tsx:137-178 | a 200 answer stores the filtered list and the adjusted selection together; any other answer or a failed request changes neither and reports the message or 删除失败 |
| VodSourcesTab.Tab.SelectSource | components/admin/VodSourcesTab.tsx:234-256 | a 200 answer selects the key; anything else keeps the selection and reports the message or 选择失败 |
| VodSourcesTab.Tab.OpenImport | components/admin/VodSourcesTab.tsx:263 | the import dialog opens and nothing else changes |
| VodSourcesTab.Tab.DecryptPreview | components/admin/VodSourcesTab.tsx:55-87 | a missing password or data sets 请输入密码和加密数据 and decrypts nothing; otherwise the preview is set exactly for a non-empty source list, an empty or absent list sets 配置中没有 VOD 源数据, and a thrown error sets its message or 解密失败 |
| VodSourcesTab.Tab.ConfirmImport | components/admin/VodSourcesTab.tsx:90-129 | without a non-empty preview nothing happens; a 200 answer replaces the list by the preview, selects its first key, reports how many were imported and resets the dialog; a non-200 answer or a failed request keeps everything and reports the message, 导入视频源失败 or 导入失败 |
| HistoryPage.Matching | app/history/page.tsx:36-37 | the case-insensitive filter keeps exactly the entries whose lower-cased name contains the lower-cased keyword, in order |
| HistoryPage.MatchingConcat | app/history/page.tsx:37 | filtering works piecewise over a concatenation |
| HistoryPage.FilteredFacts | app/history/page.tsx:34-38 | a blank keyword shows the whole history; otherwise exactly the matching entries are shown; never more than the history |
| HistoryPage.NoMatchEmpty | app/history/page.tsx:37 | with no name matching, nothing is shown |
| HistoryPage.BlankIffAllSpace | app/history/page.tsx:35 | a keyword is blank after `trim()` exactly when it is all white space |
| HistoryPage.AllSpaceTrimsEmpty | app/history/page.tsx:35 | trimming the start of white space leaves nothing |
| HistoryPage.UntrimmedKeyword | app/history/page.tsx:35-37 | only the blank check trims: a keyword with a trailing space is searched with that space |
| HistoryPage.ToggleFacts | app/history/page.tsx:41-49 | toggling flips the membership of that id alone, and toggling twice restores the selection |
| HistoryPage.IdSet | app/history/page.tsx:56 | `new Set(filteredHistory.map(item => item.id))` holds exactly the shown ids and no more ids than entries |
| HistoryPage.IdSetSize | app/history/page.tsx:53-56 | the id set is as large as the list exactly when the ids are distinct |
| HistoryPage.RepeatedHead | app/history/page.tsx:56 | a repeated first id adds nothing to the set and makes the ids not distinct |
| HistoryPage.DistinctCons | app/history/page.tsx:56 | with a fresh first id, the ids are distinct exactly when the rest are |
| HistoryPage.SelectAllTwice | app/history/page.tsx:52-58 | from a partial selection select-all selects every shown id, and pressing it again clears the selection exactly when the shown ids are distinct |
| HistoryPage.WithoutIds | app/history/page.tsx:61-65 | removing a set of ids keeps exactly the entries with other ids |
| HistoryPage.WithoutNoIds | app/history/page.tsx:62 | removing no ids changes nothing |
| HistoryPage.PlayUrlPath | app/history/page.tsx:73-75 | in the play link the path is `/play/` and the id, running up to the first `?`, and the query names the source when it has one |
| HistoryPage.PlayUrl | app/history/page.tsx:73-75 | the play link starts with `/play/` and the id and ends with `from=history` |
| HistoryPage.NumberIdPath | app/history/page.tsx:74-75 | a numeric id never holds a `?`, so its link splits there |
| HistoryPage.Days | app/history/page.tsx:84 | `Math.floor(diff / day)` is the whole number of days, rounded down also for negative differences |
| HistoryPage.FormatTime | app/history/page.tsx:80-90 | 今天 exactly under one day, 昨天 exactly from one to two days, "n天前" from two to seven days, a short date of the entry's timestamp exactly from seven days on |
| HistoryPage.FutureTimestamp | app/history/page.tsx:84-88 | a timestamp in the future gets a negative day count such as "-1天前" |
| HistoryPage.Page.constructor | app/history/page.tsx:21-31 | the page starts with the loaded history, an empty keyword, select mode off and nothing selected |
| HistoryPage.Page.SetKeyword | app/history/page.tsx:176-182 | only the keyword changes |
| HistoryPage.Page.EnterSelectMode | app/history/page.tsx:150 | select mode turns on and nothing else changes |
| HistoryPage.Page.LeaveSelectMode | app/history/page.tsx:138-141 | select mode turns off and the selection is cleared |
| HistoryPage.Page.ToggleSelect | app/history/page.tsx:41-49 | the selection is toggled at that id |
| HistoryPage.Page.ToggleSelectAll | app/history/page.tsx:52-58 | the selection becomes select-all of the shown entries |
| HistoryPage.Page.DeleteSelected | app/history/page.tsx:61-65 | the selected entries leave the history, the selection is cleared and select mode ends |
| HistoryPage.Page.Remove | app/history/page.tsx:313 | one entry's delete button removes that id |
| HistoryPage.Page.ClearAll | app/history/page.tsx:156 | the history becomes empty |
| HistoryPage.Page.Click | app/history/page.tsx:68-77 | in select mode a click toggles the entry and navigates nowhere; otherwise it navigates to the entry's play link and changes nothing |
| HeroBanner.NextIndex | components/home/HeroBanner.tsx:38-42 | `(i + 1) % n` stays a slide index: the next slide, or the first after the last |
| HeroBanner.PrevIndex | components/home/HeroBanner.tsx:33-35 | the previous index stays a slide index |
| HeroBanner.PrevNextInverse | components/home/HeroBanner.tsx:32-42 | previous undoes next and next undoes previous; previous is a step back modulo the number of movies |
| HeroBanner.AdvanceWithin | components/home/HeroBanner.tsx:38-42 | within one lap, k steps move the index k places |
| HeroBanner.AdvanceSplit | components/home/HeroBanner.tsx:38-42 | a steps then b steps are a + b steps |
| HeroBanner.Wrap | components/home/HeroBanner.tsx:38-42 | stepping on from any slide reaches the first slide after the last one |
| HeroBanner.FullCycle | components/home/HeroBanner.tsx:17-25 | the timer shows every movie in turn: n steps return to the start and no fewer do |
| HeroBanner.Banner.constructor | components/home/HeroBanner.tsx:14 | the carousel starts at the first slide |
| HeroBanner.Banner.GoTo | components/home/HeroBanner.tsx:28-30 | a dot sets the index to its own slide |
| HeroBanner.Banner.Prev | components/home/HeroBanner.tsx:32-36 | the left arrow, shown only with slides, moves to the previous index |
| HeroBanner.Banner.Next | components/home/HeroBanner.tsx:38-42 | the right arrow, shown only with slides, moves to the next index |
| HeroBanner.Banner.Tick | components/home/HeroBanner.tsx:17-25 | a tick, which exists only for two or more movies, moves to the next index |
| CalendarPage.DigitRunStops | app/calendar/page.tsx:38 | the digits of a number end at the first mark after them |
| CalendarPage.NumberThenMark | app/calendar/page.tsx:38 | a number followed by a non-digit mark can be read back: equal texts have equal numbers and equal rests |
| CalendarPage.MainTextShape | app/calendar/page.tsx:38 | the heading is the month number, 月, the day number and 日 |
| CalendarPage.MainTextInjective | app/calendar/page.tsx:38 | different months or days give different headings |
| CalendarPage.FormatDate | app/calendar/page.tsx:28-47 | the heading is the month-and-day text and the weekday's name; the today and tomorrow marks hold exactly when the date string is today's or tomorrow's, never both when those differ |
| CalendarPage.EpisodeLabel | app/calendar/page.tsx:66-68 | a positive season gives the `S…E…` label and any other the `第…集` label, as its first character shows |
| CalendarPage.EpisodeLabelInjective | app/calendar/page.tsx:66-68 | equal labels have the same form and the same episode, and the same season when it is positive |
| CalendarPage.SeasonLabelInjective | app/calendar/page.tsx:67 | equal `S…E…` labels have equal season and episode |
| CalendarPage.SeasonLabelTail | app/calendar/page.tsx:67 | after the `S` comes the season, `E` and the episode |
| CalendarPage.PlainLabelInjective | app/calendar/page.tsx:68 | equal `第…集` labels have the same episode |
| CalendarPage.DateRange | app/calendar/page.tsx:243-255 | the requested range spans seven days |
| CalendarPage.WeeksAdjacent | app/calendar/page.tsx:246 | consecutive offsets request consecutive weeks, with no gap and no overlap |
| CalendarPage.WeeksTile | app/calendar/page.tsx:243-255 | every day from two weeks back to three weeks ahead lies in the range of exactly one reachable offset |
| CalendarPage.WithContent | app/calendar/page.tsx:283 | the filter keeps exactly the days with a non-empty entry list |
| CalendarPage.WithContentConcat | app/calendar/page.tsx:283 | filtering works piecewise over a concatenation |
| CalendarPage.DaysWithContent | app/calendar/page.tsx:281-284 | no data or no days give nothing; otherwise exactly the days with entries are kept |
| CalendarPage.EntryTarget | app/calendar/page.tsx:287-293 | an entry with a Douban id opens `/movie/` and that id; otherwise a search under `/search?q=` |
| CalendarPage.SearchTargetVerbatim | app/calendar/page.tsx:291 | the search is for the Chinese name, or the plain name when it is empty, kept verbatim when it needs no escaping |
| CalendarPage.Page.constructor | app/calendar/page.tsx:239-240 | the page starts on the current week of region CN and issues one request |
| CalendarPage.Page.PrevWeek | app/calendar/page.tsx:341-342 | the left arrow moves one week back unless at -2, and a move issues a request |
| CalendarPage.Page.NextWeek | app/calendar/page.tsx:358-359 | the right arrow moves one week on unless at 2, and a move issues a request |
| CalendarPage.Page.ThisWeek | app/calendar/page.tsx:348 | 本周, and the retry button as written, return to offset 0 and issue a request exactly when the offset changed: on the current week nothing is fetched |
| CalendarPage.Page.SetRegion | app/calendar/page.tsx:326 | a new region keeps the week and issues a request |
| CalendarPage.Page.Retry | app/calendar/page.tsx:377 | the retry as intended returns to the current week and always issues a request |

## Left out

- Network and route plumbing are inputs, not models. Every `fetch`, `Promise.all` fan-out and `response.json()` is replaced by the outcome it delivers. A rejected fetch carries what the code looks at: the drama detail route reads the error's `name`, and `AbortSignal.timeout(15000)` rejects with "TimeoutError", while `controller.abort()` in the Douban client and the CORS probe gives "AbortError". A body that does not parse is an outcome of its own where the code awaits `response.json()` or calls `JSON.parse`. The other API routes, streaming search and image proxy are not part of this model.
- React rendering, JSX and CSS are left out. What the render functions decide (which player, spinner or message is shown) is modelled as a `Render` function where the source has gating logic.
- hls.js and Artplayer internals, their configuration constants and the `createAdFilterLoader` subclassing are left out. Engine events (an error event, manifest parsed, a timer firing) are method calls. Only the condition under which the loader filters a body is modelled (`AdFilter.LoaderBody`).
- Time is discrete. Timers (`setTimeout`, `setInterval`, the backoff sleeps) are scheduled actions that the caller fires; their delays are recorded, not waited. `Date.now`, `new Date()`, `toISOString` and `toLocaleDateString` are parameters: the calendar takes today's and tomorrow's ISO dates and the month, day and weekday of a date; the history page takes `now`; the short date of `formatTime` is an opaque value.
- The UTC/local mismatch of the calendar (`toISOString` against `getDate`) is not modelled, because both come in as inputs.
- Browser APIs are inputs: `window.MediaSource`, `navigator`, `contentWindow` access in the health check, and the `postMessage` progress handler of the embedded player. The progress handler is not modelled, because it only forwards a number.
- localStorage is not modelled: neither progress saving and restoring in the local player nor the history store. `removeHistory(id)` and `clearAllHistory()` belong to a hook that is not part of this model. The history page takes their effect to be removing entries with that id and emptying the history (`HistoryPage.Page.Remove`, `HistoryPage.Page.ClearAll`).
- Randomness (`getRandomProxy`, the user agent) is an input: the index drawn is a parameter of `DoubanClient.RandomProxy`.
- HTTP headers and user agents are not modelled, nor is the URL parsing of `convertToProxyUrl`. The parsed host, path and query (or the parse failure) are an input. `URLSearchParams` encoding of query strings is not modelled.
- Regexes are written out as scanners over characters. The default ad URL patterns are the predicate `AdFilter.DefaultIsAdUrl`, and a filter configuration may carry any predicate in their place. In `delPattern` the rewrite of the first `*` into `.*` is modelled (`TtlCache.RegexSource`), but `regex.test` itself is a predicate that the caller passes in.
- TtlCache.MemoryCache.DelPattern: `new RegExp(...)` throws a SyntaxError for a pattern that is not a valid regex once `*` is widened (an unbalanced `[`, say). The model takes every pattern to compile, so that exception is not modelled.
- IframePlayer.LoadsBounded: the bound holds per mounted instance. The iframe player is keyed on `currentIframePlayerIndex` (components/player/UnifiedPlayer.tsx:322), and the play page stores every index the player switches to in that prop (app/play/[id]/page.tsx:416). So each switch remounts the player with its load count back at 0, and with two or more candidates the chain can cycle on timeouts without the error panel appearing. The play page and this remount are not part of this model, and the same applies to IframePlayer.TriesFromReset.
- LocalHlsPlayer.Player.RunEffect: the dynamic `import` of the engines is taken to succeed; its failure is `LocalHlsPlayer.Player.OnInitFailed`. Runs are taken one at a time: an initPlayer of an earlier run that is still waiting for its probe when the next run starts is not modelled. `setPlayMode` is not modelled, because it only drives the mode badge.
- `toLowerCase` folds ASCII letters only. The source's inputs (ad patterns, keywords, titles) rely on it only for ASCII. Unicode case folding is left out.
- `parseInt` is base 10 without a `0x` prefix, which is what the routes pass.
- Floats: EXTINF durations and block sums use `real`, and similarity is a `real` ratio. IEEE rounding is not modelled.
- JSON serialisation in the caches is the identity.
- `RedisCache`, the ioredis client, `getRedisClient` and `createCache`'s choice of Redis when `REDIS_URL` is set are not modelled. Only the memory fallback and the two reconnect rules are.
- lib/crypto.ts (PBKDF2, AES-GCM, the encrypted string format) and `isSubscriptionUrl` are not part of this model. The decrypt step of the source import is an input outcome. The password and data inputs of the import dialog are modelled only as the strings the preview checks for emptiness.
- The confirmation dialog of a delete is taken as confirmed. Cancelling it changes nothing, so nothing is lost.
- VodSourcesTab never enters add mode: no handler in the file sets `isAddMode` to true. The add branch of `handleSave` is still modelled (`VodSourcesTab.AddSource`, `VodSourcesTab.Tab.Save`), but no `Tab` method turns add mode on.
- The carousel's index is not clamped when `heroMovies` shrinks. The source does not do so either, and the model keeps the movie count fixed per `Banner`. A `heroDataList` shorter than `heroMovies` is not modelled.
- UnifiedPlayer's parse-retry button clears the parse error, the parsed URL and the last parsed URL. No dependency of the parse effect changes, so no new parse starts and the parsing spinner stays. `UnifiedPlayer.Front.ParseRetryClicked` models exactly that; there is no corrected version, because the intended behaviour is not evident from the code.
- A config reply that is not 200 leaves the player configuration unset, so the config spinner stays while a fallback mode is chosen. `UnifiedPlayer.Front.LoadConfig` models this as written.
- Sorts (`enabledPlayers` by priority, the match ranking) are modelled by their stable result on sequences, not by an in-place sort.
- `DoubanClient.DoubanFetch` returns the attempts it made and the delays it scheduled; the sleeping itself is left out.

## Findings

| source | as written | input that shows it | evidently intended | confidence | as-written member | corrected member |
|---|---|---|---|---|---|---|
| app/calendar/page.tsx:377 | the error state's retry button calls `setWeekOffset(0)`. The fetch effect (258-278) re-runs only when `dateRange` or `region` changes, and `dateRange` changes only with `weekOffset`, so React skips the update when the offset is already 0 | a calendar request fails while the current week (offset 0) is shown, and the user presses 重试: no request is issued and the error stays | pressing retry fetches the current week again, whatever the offset was | not executed | CalendarPage.Page.ThisWeek | CalendarPage.Page.Retry |
| app/api/drama/detail/route.ts:191-194 | the `catch` shows the timeout message only for an error named "AbortError", but both requests use `AbortSignal.timeout(15000)` (lines 118 and 133), whose fetch rejects with a DOMException named "TimeoutError" | the source API takes longer than 15 seconds to answer: the route replies 500 获取影视详情失败 | a timed-out request is answered 请求超时，请稍后重试 | not executed; rests on the definition of `AbortSignal.timeout` | DramaDetail.TimeoutAnsweredAsFailure | DramaDetail.PostIntended |
| lib/douban-client.ts:223 | `return response.json();` inside the `try` returns the body's promise unawaited, so its rejection is not caught by the `catch` at 224-227 | Douban answers 200 with a body that is not JSON (an HTML captcha page, say): doubanSubjectSuggest rejects instead of returning `[]` | every failure of the suggest call, a body that does not parse included, gives `[]` | not executed | DoubanClient.SuggestSwallowsWhatSearchThrows | DoubanClient.SuggestCallAwaited |

/**
  The native HLS player's error policy and lifecycle (LocalHlsPlayer): three
  retry counters, the classification of hls.js error events into ignore /
  switch to the proxy / retry later / report, the error record shown to the
  user with its downgrade hook, the timers the retries schedule, and the URL
  rewrite that routes playback through the video proxy.

  Engine calls (stopLoad, startLoad, recoverMediaError, destroy) are recorded
  in `engineLog`; `setTimeout` becomes an entry in `timers` that the
  environment fires later through `FireTimer`.
 */
module LocalHlsPlayer {
  import opened Strings
  import opened PlayerTypes
  import opened CorsCheck

  const MaxNetworkRetry := 3
  const MaxMediaRetry := 2
  const MaxKeyError := 5

  /** The value of `Hls.ErrorTypes.NETWORK_ERROR` and `Hls.ErrorTypes.MEDIA_ERROR` in hls.js. */
  const NetworkErrorType := "networkError"
  const MediaErrorType := "mediaError"

  const ProxyPrefix := "/api/video-proxy/"

  // ---------------------------------------------------------------------------
  // getProxiedUrl
  // ---------------------------------------------------------------------------

  function GetProxiedUrl(url: string, useDirectPlay: bool): (r: string)
    ensures url == "" ==> r == ""
    ensures StartsWith(url, ProxyPrefix) ==> r == url
    ensures useDirectPlay ==> r == url
    ensures url != "" && !StartsWith(url, ProxyPrefix) && !useDirectPlay ==>
              r == ProxyPrefix + EncodeUriComponent(url)
  {
    if url == "" then ""
    else if StartsWith(url, ProxyPrefix) then url
    else if useDirectPlay then url
    else ProxyPrefix + EncodeUriComponent(url)
  }

  /** A proxied URL is recognised as proxied: rewriting it again changes nothing. */
  lemma ProxiedUrlIdempotent(url: string, useDirectPlay: bool)
    ensures GetProxiedUrl(GetProxiedUrl(url, useDirectPlay), useDirectPlay) == GetProxiedUrl(url, useDirectPlay)
  {
    var r := GetProxiedUrl(url, useDirectPlay);
    if url != "" && !StartsWith(url, ProxyPrefix) && !useDirectPlay {
      assert r[..|ProxyPrefix|] == ProxyPrefix;
    }
  }

  // ---------------------------------------------------------------------------
  // handleHlsError as a function of the event, the counters and the mode
  // ---------------------------------------------------------------------------

  datatype Counters = Counters(network: nat, media: nat, key: nat)

  const Fresh := Counters(0, 0, 0)

  datatype Reaction =
    | Ignore
    /** setUseDirectPlay(false), setPlayMode("proxy") and a bumped retryCount. */
    | SwitchToProxy
    /** `setTimeout(() => hls.startLoad(), delayMs)` */
    | ScheduleStartLoad(delayMs: nat)
    /** `setTimeout(() => hls.recoverMediaError(), delayMs)` */
    | ScheduleRecoverMedia(delayMs: nat)
    /** setPlayerError(error), followed by hls.stopLoad() when `stopLoad`. */
    | Report(error: PlayerError, stopLoad: bool)

  datatype Outcome = Outcome(counters: Counters, reaction: Reaction)

  predicate IsKeyError(d: HlsErrorData) {
    d.details == Some("keyLoadError") || d.details == Some("keyLoadTimeOut")
  }

  predicate IsManifestError(d: HlsErrorData) {
    d.details == Some("manifestLoadError")
  }

  predicate IsMissingFragment(d: HlsErrorData) {
    d.details == Some("fragLoadError") && d.httpCode == Some(404)
  }

  /** `data.response?.code` is truthy: present and not zero. */
  predicate HasStatus(d: HlsErrorData) {
    d.httpCode.Some? && d.httpCode.value != 0
  }

  /** A reaction that reports a non-retryable error, which fires the downgrade hook. */
  predicate Downgrades(r: Reaction) {
    r.Report? && !r.error.canRetry
  }

  /** The messages shown for each reported error. */
  const KeyMissingMsg := "视频加密密钥不存在（404），无法播放此视频"
  const KeyFailedMsg := "视频加密密钥加载失败，无法播放"
  const ManifestMissingMsg := "视频文件不存在（404）"
  const ManifestExpiredMsg := "视频链接已过期或无效（403），请返回重新选择"
  const ManifestNetworkMsg := "视频清单加载失败，请检查网络连接"
  const FragmentMissingMsg := "视频片段不存在（404），该视频可能已损坏"
  const NetworkMissingMsg := "视频资源不存在（404）"
  const NetworkFailedMsg := "网络连接失败，请检查网络连接"
  const MediaFailedMsg := "视频格式错误或编码不支持"
  const VideoFailedMsg := "视频播放失败"
  const InitFailedMsg := "播放器加载失败，请刷新重试"

  function ManifestHttpMsg(code: int): string {
    "视频清单加载失败 (HTTP " + IntToString(code) + ")"
  }

  /** The message of an unknown fatal error: `data.details || "未知错误"`. */
  function UnknownMsg(details: Option<string>): string {
    "视频加载失败: " + (if details.Some? && details.value != "" then details.value else "未知错误")
  }

  /** The `switch (data.type)` on a fatal error that none of the detail checks claimed. */
  function FatalOutcome(d: HlsErrorData, c: Counters): (o: Outcome)
    requires d.fatal
  {
    if d.errorType == Some(NetworkErrorType) then
      var n := c.network + 1;
      var c' := c.(network := n);
      if n > MaxNetworkRetry then
        var msg := if d.httpCode == Some(404) then NetworkMissingMsg else NetworkFailedMsg;
        Outcome(c', Report(PlayerError(Network, msg, true), true))
      else
        Outcome(c', ScheduleStartLoad(1000 * n))
    else if d.errorType == Some(MediaErrorType) then
      var n := c.media + 1;
      var c' := c.(media := n);
      if n > MaxMediaRetry then Outcome(c', Report(PlayerError(Media, MediaFailedMsg, false), true))
      else Outcome(c', ScheduleRecoverMedia(500))
    else
      Outcome(c, Report(PlayerError(Unknown, UnknownMsg(d.details), true), false))
  }

  /** handleHlsError: the new counters and what the player does, given the mode the handler captured. */
  function HandleHlsError(d: HlsErrorData, c: Counters, useDirectPlay: bool): (o: Outcome)
    ensures o.counters == c || o.counters == c.(key := c.key + 1) || o.counters == c.(network := c.network + 1)
            || o.counters == c.(media := c.media + 1)
    ensures o.reaction.ScheduleStartLoad? || o.reaction.ScheduleRecoverMedia? ==> d.fatal
    ensures o.reaction.SwitchToProxy? ==> useDirectPlay
  {
    if IsKeyError(d) then
      var key := c.key + 1;
      var c' := c.(key := key);
      if key > MaxKeyError then
        var msg := if d.httpCode == Some(404) then KeyMissingMsg else KeyFailedMsg;
        Outcome(c', Report(PlayerError(Key, msg, false), true))
      else
        Outcome(c', Ignore)
    else if IsManifestError(d) then
      var is404 := d.httpCode == Some(404);
      var is403 := d.httpCode == Some(403);
      if useDirectPlay && !is404 && !is403 && !HasStatus(d) then Outcome(c, SwitchToProxy)
      else if is404 then Outcome(c, Report(PlayerError(Manifest, ManifestMissingMsg, false), false))
      else if is403 then Outcome(c, Report(PlayerError(Manifest, ManifestExpiredMsg, false), false))
      else if HasStatus(d) then Outcome(c, Report(PlayerError(Manifest, ManifestHttpMsg(d.httpCode.value), true), false))
      else Outcome(c, Report(PlayerError(Manifest, ManifestNetworkMsg, true), false))
    else if IsMissingFragment(d) then
      Outcome(c, Report(PlayerError(Fragment, FragmentMissingMsg, false), false))
    else if d.fatal then
      FatalOutcome(d, c)
    else
      Outcome(c, Ignore)
  }

  /** The reactions to a run of error events delivered to one handler, and the counters after each. */
  function Deliver(events: seq<HlsErrorData>, c: Counters, useDirectPlay: bool): (rs: seq<Reaction>)
    ensures |rs| == |events|
    decreases |events|
  {
    if |events| == 0 then []
    else
      var o := HandleHlsError(events[0], c, useDirectPlay);
      [o.reaction] + Deliver(events[1..], o.counters, useDirectPlay)
  }

  // ---------------------------------------------------------------------------
  // Properties of the error policy
  // ---------------------------------------------------------------------------

  /** A key error bumps the key counter whether or not it is fatal; it is reported only past the fifth. */
  lemma KeyErrorPolicy(d: HlsErrorData, c: Counters, useDirectPlay: bool)
    requires IsKeyError(d)
    ensures HandleHlsError(d, c, useDirectPlay).counters == c.(key := c.key + 1)
    ensures HandleHlsError(d, c, useDirectPlay).reaction.Report? <==> c.key + 1 > MaxKeyError
    ensures !HandleHlsError(d, c, useDirectPlay).reaction.Report? ==> HandleHlsError(d, c, useDirectPlay).reaction == Ignore
    ensures HandleHlsError(d, c, useDirectPlay).reaction.Report? ==>
              var r := HandleHlsError(d, c, useDirectPlay).reaction;
              r.error.kind == Key && !r.error.canRetry && r.stopLoad
  {
  }

  /** A run of key errors from fresh counters: the first five do nothing, every later one is reported. */
  lemma {:induction false} KeyErrorRun(events: seq<HlsErrorData>, c: Counters, useDirectPlay: bool, j: nat)
    requires forall k :: 0 <= k < |events| ==> IsKeyError(events[k])
    requires j < |events|
    ensures Deliver(events, c, useDirectPlay)[j].Report? <==> c.key + j + 1 > MaxKeyError
    ensures Deliver(events, c, useDirectPlay)[j].Report? ==> Downgrades(Deliver(events, c, useDirectPlay)[j])
    ensures !Deliver(events, c, useDirectPlay)[j].Report? ==> Deliver(events, c, useDirectPlay)[j] == Ignore
    decreases j
  {
    KeyErrorPolicy(events[0], c, useDirectPlay);
    DeliverCons(events, c, useDirectPlay, j);
    if j > 0 {
      var c' := c.(key := c.key + 1);
      assert forall k :: 0 <= k < |events[1..]| ==> IsKeyError(events[1..][k]) by {
        forall k | 0 <= k < |events[1..]| ensures IsKeyError(events[1..][k]) {
          assert events[1..][k] == events[k + 1];
        }
      }
      KeyErrorRun(events[1..], c', useDirectPlay, j - 1);
    }
  }

  /** The manifest error policy. */
  lemma ManifestErrorPolicy(d: HlsErrorData, c: Counters, useDirectPlay: bool)
    requires IsManifestError(d)
    ensures var o := HandleHlsError(d, c, useDirectPlay);
            && o.counters == c
            && (useDirectPlay && d.httpCode.None? ==> o.reaction == SwitchToProxy)
            && (d.httpCode == Some(404) || d.httpCode == Some(403) ==>
                  o.reaction.Report? && o.reaction.error.kind == Manifest && !o.reaction.error.canRetry)
            && (d.httpCode.Some? && d.httpCode.value !in {0, 403, 404} ==>
                  o.reaction.Report? && o.reaction.error.kind == Manifest && o.reaction.error.canRetry)
            && (!useDirectPlay && (d.httpCode.None? || d.httpCode == Some(0)) ==>
                  o.reaction.Report? && o.reaction.error.kind == Manifest && o.reaction.error.canRetry)
            && !o.reaction.ScheduleStartLoad? && !o.reaction.ScheduleRecoverMedia?
  {
  }

  /** A missing fragment is final; any other fragment error is handled by its fatal type. */
  lemma FragmentErrorPolicy(d: HlsErrorData, c: Counters, useDirectPlay: bool)
    requires d.details == Some("fragLoadError")
    ensures d.httpCode == Some(404) ==>
              HandleHlsError(d, c, useDirectPlay).reaction == Report(PlayerError(Fragment, FragmentMissingMsg, false), false)
    ensures d.httpCode != Some(404) && d.fatal ==> HandleHlsError(d, c, useDirectPlay) == FatalOutcome(d, c)
    ensures d.httpCode != Some(404) && !d.fatal ==> HandleHlsError(d, c, useDirectPlay) == Outcome(c, Ignore)
  {
  }

  /** An event that is neither a key, manifest or missing-fragment error, nor fatal, changes nothing. */
  lemma NonFatalIgnored(d: HlsErrorData, c: Counters, useDirectPlay: bool)
    requires !IsKeyError(d) && !IsManifestError(d) && !IsMissingFragment(d) && !d.fatal
    ensures HandleHlsError(d, c, useDirectPlay) == Outcome(c, Ignore)
  {
  }

  /** A fatal network error, as the fatal-type switch sees one. */
  predicate IsFatalNetwork(d: HlsErrorData) {
    !IsKeyError(d) && !IsManifestError(d) && !IsMissingFragment(d) && d.fatal && d.errorType == Some(NetworkErrorType)
  }

  predicate IsFatalMedia(d: HlsErrorData) {
    !IsKeyError(d) && !IsManifestError(d) && !IsMissingFragment(d) && d.fatal && d.errorType == Some(MediaErrorType)
  }

  /** One fatal network error: the counter goes up and the reaction depends on the new count only. */
  lemma NetworkStep(d: HlsErrorData, c: Counters, useDirectPlay: bool)
    requires IsFatalNetwork(d)
    ensures var o := HandleHlsError(d, c, useDirectPlay);
            && o.counters == c.(network := c.network + 1)
            && (c.network + 1 <= MaxNetworkRetry ==> o.reaction == ScheduleStartLoad(1000 * (c.network + 1)))
            && (c.network + 1 > MaxNetworkRetry ==>
                  o.reaction.Report? && o.reaction.error.kind == Network && o.reaction.error.canRetry && o.reaction.stopLoad)
  {
    assert HandleHlsError(d, c, useDirectPlay) == FatalOutcome(d, c);
  }

  /** One fatal media error. */
  lemma MediaStep(d: HlsErrorData, c: Counters, useDirectPlay: bool)
    requires IsFatalMedia(d)
    ensures var o := HandleHlsError(d, c, useDirectPlay);
            && o.counters == c.(media := c.media + 1)
            && (c.media + 1 <= MaxMediaRetry ==> o.reaction == ScheduleRecoverMedia(500))
            && (c.media + 1 > MaxMediaRetry ==>
                  o.reaction.Report? && o.reaction.error.kind == Media && Downgrades(o.reaction) && o.reaction.stopLoad)
  {
    assert HandleHlsError(d, c, useDirectPlay) == FatalOutcome(d, c);
  }

  /** Deliver's head and tail. */
  lemma DeliverCons(events: seq<HlsErrorData>, c: Counters, useDirectPlay: bool, j: nat)
    requires j < |events|
    ensures var o := HandleHlsError(events[0], c, useDirectPlay);
            && Deliver(events, c, useDirectPlay)[0] == o.reaction
            && (j > 0 ==> Deliver(events, c, useDirectPlay)[j] == Deliver(events[1..], o.counters, useDirectPlay)[j - 1])
  {
  }

  /**
    The j-th fatal network error after c.network earlier ones: while the count stays within three it schedules
    startLoad after 1000 ms times the count; from the fourth on a retryable
    network error is reported and loading stops.
   */
  lemma {:induction false} NetworkErrorRun(events: seq<HlsErrorData>, c: Counters, useDirectPlay: bool, j: nat)
    requires forall k :: 0 <= k < |events| ==> IsFatalNetwork(events[k])
    requires j < |events|
    ensures var r := Deliver(events, c, useDirectPlay)[j];
            && (c.network + j + 1 <= MaxNetworkRetry ==> r == ScheduleStartLoad(1000 * (c.network + j + 1)))
            && (c.network + j + 1 > MaxNetworkRetry ==>
                  r.Report? && r.error.kind == Network && r.error.canRetry && r.stopLoad)
    decreases j
  {
    NetworkStep(events[0], c, useDirectPlay);
    DeliverCons(events, c, useDirectPlay, j);
    if j > 0 {
      NetworkTail(events);
      NetworkErrorRun(events[1..], c.(network := c.network + 1), useDirectPlay, j - 1);
    }
  }

  lemma NetworkTail(events: seq<HlsErrorData>)
    requires |events| > 0 && forall k :: 0 <= k < |events| ==> IsFatalNetwork(events[k])
    ensures forall k :: 0 <= k < |events[1..]| ==> IsFatalNetwork(events[1..][k])
  {
    forall k | 0 <= k < |events[1..]| ensures IsFatalNetwork(events[1..][k]) {
      assert events[1..][k] == events[k + 1];
    }
  }

  /** The network backoff strictly grows from one retry to the next. */
  lemma NetworkBackoffIncreasing(events: seq<HlsErrorData>, useDirectPlay: bool, j: nat)
    requires forall k :: 0 <= k < |events| ==> IsFatalNetwork(events[k])
    requires j + 1 < |events| && j + 2 <= MaxNetworkRetry
    ensures Deliver(events, Fresh, useDirectPlay)[j].ScheduleStartLoad?
    ensures Deliver(events, Fresh, useDirectPlay)[j + 1].ScheduleStartLoad?
    ensures Deliver(events, Fresh, useDirectPlay)[j].delayMs < Deliver(events, Fresh, useDirectPlay)[j + 1].delayMs
  {
    NetworkErrorRun(events, Fresh, useDirectPlay, j);
    NetworkErrorRun(events, Fresh, useDirectPlay, j + 1);
  }

  /** The first two fatal media errors schedule a recovery after 500 ms; the third is final. */
  lemma {:induction false} MediaErrorRun(events: seq<HlsErrorData>, c: Counters, useDirectPlay: bool, j: nat)
    requires forall k :: 0 <= k < |events| ==> IsFatalMedia(events[k])
    requires j < |events|
    ensures var r := Deliver(events, c, useDirectPlay)[j];
            && (c.media + j + 1 <= MaxMediaRetry ==> r == ScheduleRecoverMedia(500))
            && (c.media + j + 1 > MaxMediaRetry ==> r.Report? && r.error.kind == Media && Downgrades(r) && r.stopLoad)
    decreases j
  {
    MediaStep(events[0], c, useDirectPlay);
    DeliverCons(events, c, useDirectPlay, j);
    if j > 0 {
      MediaTail(events);
      MediaErrorRun(events[1..], c.(media := c.media + 1), useDirectPlay, j - 1);
    }
  }

  lemma MediaTail(events: seq<HlsErrorData>)
    requires |events| > 0 && forall k :: 0 <= k < |events| ==> IsFatalMedia(events[k])
    ensures forall k :: 0 <= k < |events[1..]| ==> IsFatalMedia(events[1..][k])
  {
    forall k | 0 <= k < |events[1..]| ensures IsFatalMedia(events[1..][k]) {
      assert events[1..][k] == events[k + 1];
    }
  }

  /** A fatal error of any other type is reported as a retryable unknown error, counting nothing. */
  lemma OtherFatalPolicy(d: HlsErrorData, c: Counters, useDirectPlay: bool)
    requires !IsKeyError(d) && !IsManifestError(d) && !IsMissingFragment(d) && d.fatal
    requires d.errorType != Some(NetworkErrorType) && d.errorType != Some(MediaErrorType)
    ensures HandleHlsError(d, c, useDirectPlay) == Outcome(c, Report(PlayerError(Unknown, UnknownMsg(d.details), true), false))
  {
  }

  /** Which events fire the downgrade hook: exactly the final key, manifest, fragment and media errors. */
  lemma DowngradeCases(d: HlsErrorData, c: Counters, useDirectPlay: bool)
    ensures Downgrades(HandleHlsError(d, c, useDirectPlay).reaction) <==>
              (IsKeyError(d) && c.key + 1 > MaxKeyError)
              || (!IsKeyError(d) && IsManifestError(d) && (d.httpCode == Some(404) || d.httpCode == Some(403)))
              || (!IsKeyError(d) && !IsManifestError(d) && IsMissingFragment(d))
              || (IsFatalMedia(d) && c.media + 1 > MaxMediaRetry)
  {
  }

  // ---------------------------------------------------------------------------
  // The CORS probe at player start
  // ---------------------------------------------------------------------------

  /** A probe that reports a CORS block switches to the proxy; every other outcome continues directly. */
  predicate ProbeSwitchesToProxy(r: CorsCheckResult) {
    r.CorsBlocked?
  }

  /** Only a fetch rejected with "Failed to fetch" moves playback to the proxy; an HTTP error does not. */
  lemma ProbeOutcomes(outcome: FetchOutcome)
    ensures ProbeSwitchesToProxy(CheckCorsSupport(outcome)) <==>
              outcome.Thrown? && outcome.isTypeError && Contains(outcome.message, "Failed to fetch")
    ensures outcome.Response? ==> !ProbeSwitchesToProxy(CheckCorsSupport(outcome))
  {
  }

  // ---------------------------------------------------------------------------
  // The component's refs and state
  // ---------------------------------------------------------------------------

  datatype TimerAction = StartLoadAfter(delayMs: nat) | RecoverMediaAfter(delayMs: nat)

  datatype EngineCall = StopLoad | StartLoad | RecoverMediaError | DestroyEngines

  class Player {
    const videoUrl: string
    var counters: Counters
    var useDirectPlay: bool
    var retryCount: nat
    var isLoading: bool
    var error: Option<PlayerError>
    var mounted: bool
    /** timersRef: the pending timers by id. */
    var timers: map<nat, TimerAction>
    var nextTimer: nat
    /** hlsRef.current and artRef.current are set. */
    var hlsAttached: bool
    var artAttached: bool
    var engineLog: seq<EngineCall>
    /** How many times the `onError` downgrade hook was called. */
    var downgrades: nat

    ghost predicate Valid()
      reads this
    {
      forall id :: id in timers ==> id < nextTimer
    }

    constructor(videoUrl: string)
      ensures Valid() && this.videoUrl == videoUrl
      ensures counters == Fresh && useDirectPlay && retryCount == 0 && isLoading && error.None?
      ensures mounted && timers == map[] && !hlsAttached && !artAttached && engineLog == [] && downgrades == 0
    {
      this.videoUrl := videoUrl;
      counters := Fresh;
      useDirectPlay := true;
      retryCount := 0;
      isLoading := true;
      error := None;
      mounted := true;
      timers := map[];
      nextTimer := 0;
      hlsAttached := false;
      artAttached := false;
      engineLog := [];
      downgrades := 0;
    }

    /** The URL handed to the player. */
    function PlaybackUrl(): string
      reads this
    {
      GetProxiedUrl(videoUrl, useDirectPlay)
    }

    /** setPlayerError: ignored once unmounted; the downgrade hook fires exactly for non-retryable errors. */
    method SetPlayerError(e: PlayerError)
      modifies this
      ensures !old(mounted) ==> unchanged(this)
      ensures old(mounted) ==> error == Some(e) && !isLoading
      ensures old(mounted) ==> downgrades == old(downgrades) + (if e.canRetry then 0 else 1)
      ensures counters == old(counters) && useDirectPlay == old(useDirectPlay) && retryCount == old(retryCount)
      ensures mounted == old(mounted) && timers == old(timers) && nextTimer == old(nextTimer)
      ensures hlsAttached == old(hlsAttached) && artAttached == old(artAttached) && engineLog == old(engineLog)
    {
      if !mounted {
        return;
      }
      error := Some(e);
      isLoading := false;
      if !e.canRetry {
        downgrades := downgrades + 1;
      }
    }

    /** handleRetry */
    method HandleRetry()
      modifies this
      ensures error.None? && isLoading && retryCount == old(retryCount) + 1 && counters == Fresh
      ensures useDirectPlay == old(useDirectPlay) && mounted == old(mounted) && timers == old(timers)
      ensures nextTimer == old(nextTimer) && hlsAttached == old(hlsAttached) && artAttached == old(artAttached)
      ensures engineLog == old(engineLog) && downgrades == old(downgrades)
    {
      error := None;
      isLoading := true;
      retryCount := retryCount + 1;
      counters := Fresh;
    }

    /** cleanupPlayer: cancel every tracked timer, destroy and drop both engines. */
    method CleanupPlayer()
      modifies this
      ensures timers == map[] && !hlsAttached && !artAttached
      ensures engineLog == old(engineLog) + (if old(hlsAttached) || old(artAttached) then [DestroyEngines] else [])
      ensures counters == old(counters) && useDirectPlay == old(useDirectPlay) && retryCount == old(retryCount)
      ensures isLoading == old(isLoading) && error == old(error) && mounted == old(mounted)
      ensures nextTimer == old(nextTimer) && downgrades == old(downgrades)
    {
      timers := map[];
      if hlsAttached || artAttached {
        engineLog := engineLog + [DestroyEngines];
      }
      hlsAttached := false;
      artAttached := false;
    }

    /** The effect's cleanup: mark unmounted, then clean up. */
    method Unmount()
      modifies this
      ensures !mounted && timers == map[] && !hlsAttached && !artAttached
      ensures engineLog == old(engineLog) + (if old(hlsAttached) || old(artAttached) then [DestroyEngines] else [])
      ensures counters == old(counters) && useDirectPlay == old(useDirectPlay) && retryCount == old(retryCount)
      ensures isLoading == old(isLoading) && error == old(error) && nextTimer == old(nextTimer) && downgrades == old(downgrades)
    {
      mounted := false;
      CleanupPlayer();
    }

    /**
      The init effect runs again after one of its dependencies changed
      (`retryCount`, `useDirectPlay`, …): the previous run's cleanup, then,
      when the page runs in the browser with its container rendered and there
      is a URL, the mounted flag set again for the new run's initPlayer.
     */
    method EffectRerun(containerPresent: bool)
      modifies this
      requires Valid()
      ensures Valid()
      ensures mounted <==> containerPresent && videoUrl != ""
      ensures timers == map[] && !hlsAttached && !artAttached
      ensures engineLog == old(engineLog) + (if old(hlsAttached) || old(artAttached) then [DestroyEngines] else [])
      ensures counters == old(counters) && useDirectPlay == old(useDirectPlay) && retryCount == old(retryCount)
      ensures isLoading == old(isLoading) && error == old(error) && nextTimer == old(nextTimer) && downgrades == old(downgrades)
    {
      Unmount();
      if containerPresent && videoUrl != "" {
        mounted := true;
      }
    }

    /**
      The CORS branch of initPlayer after the probe in direct mode. Returns
      whether initialisation goes on; a CORS block switches to the proxy and
      bumps retryCount instead, which re-runs the effect.
     */
    method OnCorsProbe(result: CorsCheckResult) returns (proceed: bool)
      modifies this
      ensures proceed <==> old(mounted) && !ProbeSwitchesToProxy(result)
      ensures old(mounted) && ProbeSwitchesToProxy(result) ==>
                !useDirectPlay && retryCount == old(retryCount) + 1
      ensures !(old(mounted) && ProbeSwitchesToProxy(result)) ==>
                useDirectPlay == old(useDirectPlay) && retryCount == old(retryCount)
      ensures error == old(error) && counters == old(counters) && downgrades == old(downgrades)
      ensures timers == old(timers) && engineLog == old(engineLog) && mounted == old(mounted)
      ensures hlsAttached == old(hlsAttached) && artAttached == old(artAttached)
      ensures isLoading == old(isLoading) && nextTimer == old(nextTimer)
    {
      if !mounted {
        return false;
      }
      if ProbeSwitchesToProxy(result) {
        useDirectPlay := false;
        retryCount := retryCount + 1;
        return false;
      }
      return true;
    }

    /**
      The rest of initPlayer once the engine modules are loaded: nothing
      happens unless the component is still mounted and its container exists;
      otherwise the old instances are cleaned up and both engines attached.
     */
    method Attach(containerPresent: bool)
      modifies this
      requires Valid()
      ensures Valid()
      ensures !(old(mounted) && containerPresent) ==> unchanged(this)
      ensures old(mounted) && containerPresent ==>
                hlsAttached && artAttached && timers == map[]
                && engineLog == old(engineLog) + (if old(hlsAttached) || old(artAttached) then [DestroyEngines] else [])
      ensures counters == old(counters) && error == old(error) && downgrades == old(downgrades)
      ensures useDirectPlay == old(useDirectPlay) && mounted == old(mounted) && retryCount == old(retryCount)
      ensures isLoading == old(isLoading) && nextTimer == old(nextTimer)
    {
      if !mounted || !containerPresent {
        return;
      }
      CleanupPlayer();
      hlsAttached := true;
      artAttached := true;
    }

    /**
      One run of the init effect after a dependency changed, up to the
      engines: the re-run, the CORS probe in direct mode, then Attach.
      `attached` is whether the run ended with both engines attached; a run
      the probe switches to the proxy ends without engines, and the bumped
      `retryCount` makes the next run.
     */
    method RunEffect(containerPresent: bool, probe: CorsCheckResult) returns (attached: bool)
      modifies this
      requires Valid()
      ensures Valid()
      ensures attached <==> containerPresent && videoUrl != "" && !(old(useDirectPlay) && ProbeSwitchesToProxy(probe))
      ensures attached ==> hlsAttached && artAttached && mounted && useDirectPlay == old(useDirectPlay)
      ensures !attached ==> !hlsAttached && !artAttached
      ensures mounted <==> containerPresent && videoUrl != ""
      ensures containerPresent && videoUrl != "" && old(useDirectPlay) && ProbeSwitchesToProxy(probe) ==>
                !useDirectPlay && retryCount == old(retryCount) + 1
      ensures !(containerPresent && videoUrl != "" && old(useDirectPlay) && ProbeSwitchesToProxy(probe)) ==>
                useDirectPlay == old(useDirectPlay) && retryCount == old(retryCount)
      ensures engineLog == old(engineLog) + (if old(hlsAttached) || old(artAttached) then [DestroyEngines] else [])
      ensures timers == map[] && error == old(error) && counters == old(counters) && downgrades == old(downgrades)
      ensures isLoading == old(isLoading) && nextTimer == old(nextTimer)
    {
      EffectRerun(containerPresent);
      if !mounted {
        return false;
      }
      if useDirectPlay {
        var proceed := OnCorsProbe(probe);
        if !proceed {
          return false;
        }
      }
      Attach(containerPresent);
      return true;
    }

    /** The player's `ready` event: loading ends, and nothing else changes. */
    method OnReady()
      modifies this
      ensures !isLoading && error == old(error) && counters == old(counters) && timers == old(timers)
      ensures downgrades == old(downgrades) && engineLog == old(engineLog) && mounted == old(mounted)
      ensures useDirectPlay == old(useDirectPlay) && retryCount == old(retryCount) && nextTimer == old(nextTimer)
      ensures hlsAttached == old(hlsAttached) && artAttached == old(artAttached)
    {
      isLoading := false;
    }

    /** The `video:error` event: always a non-retryable media error. */
    method OnVideoError()
      modifies this
      ensures !old(mounted) ==> unchanged(this)
      ensures old(mounted) ==> error == Some(PlayerError(Media, VideoFailedMsg, false)) && !isLoading
      ensures downgrades == old(downgrades) + (if old(mounted) then 1 else 0)
      ensures counters == old(counters) && useDirectPlay == old(useDirectPlay) && retryCount == old(retryCount)
      ensures mounted == old(mounted) && timers == old(timers) && nextTimer == old(nextTimer)
      ensures hlsAttached == old(hlsAttached) && artAttached == old(artAttached) && engineLog == old(engineLog)
    {
      SetPlayerError(PlayerError(Media, VideoFailedMsg, false));
    }

    /** initPlayer's catch: a retryable unknown error, so the downgrade hook never fires. */
    method OnInitFailed()
      modifies this
      ensures !old(mounted) ==> unchanged(this)
      ensures old(mounted) ==> error == Some(PlayerError(Unknown, InitFailedMsg, true)) && !isLoading
      ensures downgrades == old(downgrades)
      ensures counters == old(counters) && useDirectPlay == old(useDirectPlay) && retryCount == old(retryCount)
      ensures mounted == old(mounted) && timers == old(timers) && nextTimer == old(nextTimer)
      ensures hlsAttached == old(hlsAttached) && artAttached == old(artAttached) && engineLog == old(engineLog)
    {
      SetPlayerError(PlayerError(Unknown, InitFailedMsg, true));
    }

    /**
      One ERROR event from hls.js. `capturedDirect` is the `useDirectPlay`
      value the handler closed over when the engine was created. The
      engines and the mounted flag are never touched; `stopLoad` on a
      report is called even once unmounted, as in the source.
     */
    method OnHlsError(d: HlsErrorData, capturedDirect: bool)
      modifies this
      requires Valid()
      ensures Valid()
      ensures counters == HandleHlsError(d, old(counters), capturedDirect).counters
      ensures mounted == old(mounted) && hlsAttached == old(hlsAttached) && artAttached == old(artAttached)
      ensures var r := HandleHlsError(d, old(counters), capturedDirect).reaction;
              && (!r.SwitchToProxy? ==> useDirectPlay == old(useDirectPlay) && retryCount == old(retryCount))
              && (!r.Report? ==> error == old(error) && isLoading == old(isLoading)
                                   && downgrades == old(downgrades) && engineLog == old(engineLog))
              && (r.Ignore? || r.SwitchToProxy? ==> timers == old(timers) && nextTimer == old(nextTimer))
              && (r.SwitchToProxy? ==> !useDirectPlay && retryCount == old(retryCount) + 1)
              && (r.ScheduleStartLoad? ==>
                    timers == old(timers)[old(nextTimer) := StartLoadAfter(r.delayMs)] && nextTimer == old(nextTimer) + 1)
              && (r.ScheduleRecoverMedia? ==>
                    timers == old(timers)[old(nextTimer) := RecoverMediaAfter(r.delayMs)] && nextTimer == old(nextTimer) + 1)
              && (r.Report? ==>
                    && (old(mounted) ==> error == Some(r.error) && !isLoading)
                    && (!old(mounted) ==> error == old(error) && isLoading == old(isLoading))
                    && downgrades == old(downgrades) + (if old(mounted) && !r.error.canRetry then 1 else 0)
                    && engineLog == old(engineLog) + (if r.stopLoad then [StopLoad] else [])
                    && timers == old(timers) && nextTimer == old(nextTimer))
    {
      var o := HandleHlsError(d, counters, capturedDirect);
      counters := o.counters;
      match o.reaction
      case Ignore =>
      case SwitchToProxy =>
        useDirectPlay := false;
        retryCount := retryCount + 1;
      case ScheduleStartLoad(delay) =>
        timers := timers[nextTimer := StartLoadAfter(delay)];
        nextTimer := nextTimer + 1;
      case ScheduleRecoverMedia(delay) =>
        timers := timers[nextTimer := RecoverMediaAfter(delay)];
        nextTimer := nextTimer + 1;
      case Report(e, stop) =>
        SetPlayerError(e);
        if stop {
          engineLog := engineLog + [StopLoad];
        }
    }

    /** A pending timer fires: it acts only while mounted with an engine, always forgets itself, and changes nothing else. */
    method FireTimer(id: nat)
      modifies this
      requires Valid()
      ensures Valid() && timers == old(timers) - {id}
      ensures id in old(timers) && old(mounted) && old(hlsAttached) ==>
                engineLog == old(engineLog) + [if old(timers)[id].StartLoadAfter? then StartLoad else RecoverMediaError]
      ensures !(id in old(timers) && old(mounted) && old(hlsAttached)) ==> engineLog == old(engineLog)
      ensures counters == old(counters) && error == old(error) && downgrades == old(downgrades)
      ensures useDirectPlay == old(useDirectPlay) && retryCount == old(retryCount) && isLoading == old(isLoading)
      ensures mounted == old(mounted) && nextTimer == old(nextTimer)
      ensures hlsAttached == old(hlsAttached) && artAttached == old(artAttached)
    {
      if id in timers {
        if mounted && hlsAttached {
          var call := if timers[id].StartLoadAfter? then StartLoad else RecoverMediaError;
          engineLog := engineLog + [call];
        }
      }
      timers := timers - {id};
    }
  }
}

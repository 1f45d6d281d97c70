/**
  The player front (UnifiedPlayer): choosing between the embedded (iframe)
  and the native (local) player, loading the player configuration, resolving
  the video URL through a parse proxy, the one-way local-to-iframe downgrade,
  the unmount-then-remount switch when the external mode changes, and which
  screen is rendered.

  The component's state is the class `Front`. Its asynchronous steps (the
  config fetch, the parse fetch) are split into the part that runs at once
  and a completion the environment delivers later; the mode-switch effect is
  `ModeEffect`, re-run by `Settle` for as long as it changes the mode, as
  React re-runs it when its dependencies change.
 */
module UnifiedPlayer {
  import opened Strings
  import opened VodTypes

  datatype Mode = IframeMode | LocalMode

  datatype ConfigMode = ConfigIframe | ConfigLocal | ConfigAuto

  datatype PlayerConfig = PlayerConfig(mode: ConfigMode, enableProxy: bool, iframePlayers: seq<IframePlayerConfig>)

  predicate HasEnabledIframePlayer(config: PlayerConfig) {
    exists i :: 0 <= i < |config.iframePlayers| && config.iframePlayers[i].enabled
  }

  /** `config.iframePlayers.some(p => p.enabled)` */
  function AnyEnabled(players: seq<IframePlayerConfig>): (b: bool)
    ensures b <==> exists i :: 0 <= i < |players| && players[i].enabled
  {
    if |players| == 0 then false
    else if players[0].enabled then true
    else
      var b := AnyEnabled(players[1..]);
      assert forall i :: 1 <= i < |players| ==> players[i] == players[1..][i - 1];
      b
  }

  /** selectBestPlayerMode; `supportsHls` is whether the window has `MediaSource`. */
  function SelectBestPlayerMode(config: PlayerConfig, supportsHls: bool): (m: Mode)
    ensures config.enableProxy && supportsHls ==> m == LocalMode
    ensures !(config.enableProxy && supportsHls) ==> (m == IframeMode <==> HasEnabledIframePlayer(config))
  {
    if config.enableProxy && supportsHls then LocalMode
    else if AnyEnabled(config.iframePlayers) then IframeMode
    else LocalMode
  }

  /** The local player is chosen only when it can work or when there is nothing else. */
  lemma LocalOnlyWhenUsableOrNoAlternative(config: PlayerConfig, supportsHls: bool)
    ensures SelectBestPlayerMode(config, supportsHls) == LocalMode <==>
              (config.enableProxy && supportsHls) || !HasEnabledIframePlayer(config)
  {
  }

  function ConfiguredMode(config: PlayerConfig, supportsHls: bool): Mode {
    match config.mode
    case ConfigAuto => SelectBestPlayerMode(config, supportsHls)
    case ConfigIframe => IframeMode
    case ConfigLocal => LocalMode
  }

  /** The parsed body of `/api/player-config`, or a failed fetch or body. */
  datatype ConfigResponse = ConfigBody(code: int, data: Option<PlayerConfig>) | ConfigThrown

  predicate ConfigAccepted(resp: ConfigResponse) {
    resp.ConfigBody? && resp.code == 200 && resp.data.Some?
  }

  /** The mode loadConfig sets, or None when it sets none. */
  function LoadedMode(resp: ConfigResponse, external: Option<Mode>, supportsHls: bool): (r: Option<Mode>)
    ensures r.None? <==> !ConfigAccepted(resp) && !resp.ConfigThrown?
    ensures r.Some? && external.Some? ==> r == external
    ensures resp.ConfigThrown? && external.None? ==> r == Some(IframeMode)
    ensures ConfigAccepted(resp) && external.None? ==>
              r == Some(ConfiguredMode(resp.data.value, supportsHls))
  {
    if resp.ConfigThrown? then Some(if external.Some? then external.value else IframeMode)
    else if ConfigAccepted(resp) then
      if external.Some? then external else Some(ConfiguredMode(resp.data.value, supportsHls))
    else None
  }

  /** handlePlayerError: local falls back to iframe; anything else stays. */
  function Downgrade(m: Option<Mode>): (r: Option<Mode>)
    ensures r != Some(LocalMode)
    ensures m != Some(LocalMode) ==> r == m
    ensures m == Some(LocalMode) ==> r == Some(IframeMode)
  {
    if m == Some(LocalMode) then Some(IframeMode) else m
  }

  lemma DowngradeIdempotent(m: Option<Mode>)
    ensures Downgrade(Downgrade(m)) == Downgrade(m)
  {
  }

  /** The parsed body of `/api/drama/parse`. Absent strings are empty. */
  datatype ParseResponse = ParseBody(code: int, url: string, msg: string, dataError: string) | ParseThrown

  datatype ParseResult = Resolved(url: string) | ParseFailed(message: string)

  const ParseFailedMsg := "视频解析失败"
  const ParseRequestFailedMsg := "视频解析请求失败，请检查网络连接"

  /** The parse proxy's answer, accepted only with code 200 and a URL. */
  function InterpretParse(resp: ParseResponse): (r: ParseResult)
    ensures r.Resolved? <==> resp.ParseBody? && resp.code == 200 && resp.url != ""
    ensures r.Resolved? ==> r.url == resp.url
    ensures r.ParseFailed? ==> r.message != ""
    ensures resp.ParseThrown? ==> r == ParseFailed(ParseRequestFailedMsg)
    ensures r.ParseFailed? && resp.ParseBody? ==>
              r.message == (if resp.msg != "" then resp.msg else if resp.dataError != "" then resp.dataError else ParseFailedMsg)
  {
    if resp.ParseThrown? then ParseFailed(ParseRequestFailedMsg)
    else if resp.code == 200 && resp.url != "" then Resolved(resp.url)
    else ParseFailed(if resp.msg != "" then resp.msg else if resp.dataError != "" then resp.dataError else ParseFailedMsg)
  }

  datatype View =
    | ConfigSpinner
    | SwitchSpinner
    | ParseErrorPanel(message: string)
    | ParseSpinner
    | IframeView(url: string, players: seq<IframePlayerConfig>, index: Option<int>)
    | LocalView(url: string)

  predicate ShowsPlayer(v: View) {
    v.IframeView? || v.LocalView?
  }

  class Front {
    const supportsHls: bool
    var videoUrl: string
    /** `vodSource?.parseProxy` is set. */
    var parseProxy: bool
    var external: Option<Mode>
    var iframeIndex: Option<int>
    var config: Option<PlayerConfig>
    var currentMode: Option<Mode>
    var isLoading: bool
    var parsedUrl: Option<string>
    var isParsing: bool
    var parseError: Option<string>
    var lastParsed: string
    var previousMode: Option<Mode>
    /** The 100 ms switch timer and the mode it would set. */
    var switchTimer: Option<Mode>
    var mounted: bool
    /** Every value currentMode has taken, in order. */
    var modeHistory: seq<Option<Mode>>

    constructor(videoUrl: string, parseProxy: bool, external: Option<Mode>, iframeIndex: Option<int>, supportsHls: bool)
      ensures this.videoUrl == videoUrl && this.parseProxy == parseProxy && this.external == external
      ensures this.iframeIndex == iframeIndex && this.supportsHls == supportsHls
      ensures config.None? && currentMode.None? && isLoading && parsedUrl.None? && !isParsing
      ensures parseError.None? && lastParsed == "" && previousMode.None? && switchTimer.None?
      ensures mounted && modeHistory == []
    {
      this.supportsHls := supportsHls;
      this.videoUrl := videoUrl;
      this.parseProxy := parseProxy;
      this.external := external;
      this.iframeIndex := iframeIndex;
      config := None;
      currentMode := None;
      isLoading := true;
      parsedUrl := None;
      isParsing := false;
      parseError := None;
      lastParsed := "";
      previousMode := None;
      switchTimer := None;
      mounted := true;
      modeHistory := [];
    }

    /** setCurrentMode, recording the value when it changes. */
    method SetMode(m: Option<Mode>)
      modifies this
      ensures currentMode == m
      ensures modeHistory == old(modeHistory) + (if m != old(currentMode) then [m] else [])
      ensures previousMode == old(previousMode) && switchTimer == old(switchTimer) && external == old(external)
      ensures config == old(config) && isLoading == old(isLoading) && mounted == old(mounted)
      ensures parsedUrl == old(parsedUrl) && parseError == old(parseError) && isParsing == old(isParsing)
      ensures lastParsed == old(lastParsed) && videoUrl == old(videoUrl) && parseProxy == old(parseProxy)
      ensures iframeIndex == old(iframeIndex)
    {
      if m != currentMode {
        modeHistory := modeHistory + [m];
      }
      currentMode := m;
    }

    /** The synchronous part of parseVideoUrl; returns whether the parse proxy is asked. */
    method BeginParse() returns (fetchNeeded: bool)
      modifies this
      ensures parseError.None?
      ensures old(lastParsed) == old(videoUrl) ==>
                !fetchNeeded && parsedUrl == old(parsedUrl) && isParsing == old(isParsing) && lastParsed == old(lastParsed)
      ensures old(lastParsed) != old(videoUrl) && !parseProxy ==>
                !fetchNeeded && parsedUrl == Some(videoUrl) && lastParsed == videoUrl && isParsing == old(isParsing)
      ensures old(lastParsed) != old(videoUrl) && parseProxy ==>
                fetchNeeded && isParsing && parsedUrl == old(parsedUrl) && lastParsed == old(lastParsed)
      ensures videoUrl == old(videoUrl) && parseProxy == old(parseProxy) && currentMode == old(currentMode)
      ensures config == old(config) && isLoading == old(isLoading) && mounted == old(mounted)
      ensures external == old(external) && previousMode == old(previousMode) && switchTimer == old(switchTimer)
      ensures modeHistory == old(modeHistory) && iframeIndex == old(iframeIndex)
    {
      parseError := None;
      if lastParsed == videoUrl {
        return false;
      }
      if !parseProxy {
        parsedUrl := Some(videoUrl);
        lastParsed := videoUrl;
        return false;
      }
      isParsing := true;
      return true;
    }

    /** The parse proxy answered (ignored once unmounted). */
    method FinishParse(resp: ParseResponse)
      modifies this
      ensures !old(mounted) ==> unchanged(this)
      ensures old(mounted) ==> !isParsing
      ensures old(mounted) && InterpretParse(resp).Resolved? ==>
                parsedUrl == Some(InterpretParse(resp).url) && lastParsed == videoUrl && parseError == old(parseError)
      ensures old(mounted) && InterpretParse(resp).ParseFailed? ==>
                parseError == Some(InterpretParse(resp).message) && parsedUrl == old(parsedUrl)
                && lastParsed == old(lastParsed)
      ensures videoUrl == old(videoUrl) && currentMode == old(currentMode) && config == old(config)
      ensures isLoading == old(isLoading) && external == old(external) && modeHistory == old(modeHistory)
      ensures previousMode == old(previousMode) && switchTimer == old(switchTimer) && mounted == old(mounted)
      ensures parseProxy == old(parseProxy) && iframeIndex == old(iframeIndex)
    {
      if !mounted {
        return;
      }
      var r := InterpretParse(resp);
      if r.Resolved? {
        parsedUrl := Some(r.url);
        lastParsed := videoUrl;
      } else {
        parseError := Some(r.message);
      }
      isParsing := false;
    }

    /** New `videoUrl` / `vodSource` props: the parse effect runs again. */
    method ChangeVideo(url: string, proxy: bool) returns (fetchNeeded: bool)
      modifies this
      ensures videoUrl == url && parseProxy == proxy && parseError.None?
      ensures fetchNeeded <==> old(lastParsed) != url && proxy
      ensures old(lastParsed) == url ==>
                parsedUrl == old(parsedUrl) && isParsing == old(isParsing) && lastParsed == old(lastParsed)
      ensures old(lastParsed) != url && !proxy ==>
                parsedUrl == Some(url) && lastParsed == url && isParsing == old(isParsing)
      ensures old(lastParsed) != url && proxy ==>
                isParsing && parsedUrl == old(parsedUrl) && lastParsed == old(lastParsed)
      ensures currentMode == old(currentMode) && config == old(config) && modeHistory == old(modeHistory)
      ensures isLoading == old(isLoading) && mounted == old(mounted) && external == old(external)
      ensures previousMode == old(previousMode) && switchTimer == old(switchTimer) && iframeIndex == old(iframeIndex)
    {
      videoUrl := url;
      parseProxy := proxy;
      fetchNeeded := BeginParse();
    }

    /** The parse-error panel's retry button. */
    method ParseRetryClicked()
      modifies this
      ensures parseError.None? && parsedUrl.None? && lastParsed == ""
      ensures videoUrl == old(videoUrl) && isParsing == old(isParsing) && currentMode == old(currentMode)
      ensures config == old(config) && isLoading == old(isLoading) && modeHistory == old(modeHistory)
      ensures mounted == old(mounted) && external == old(external) && previousMode == old(previousMode)
      ensures switchTimer == old(switchTimer) && parseProxy == old(parseProxy) && iframeIndex == old(iframeIndex)
    {
      parseError := None;
      parsedUrl := None;
      lastParsed := "";
    }

    /** loadConfig's completion (ignored once unmounted). */
    method LoadConfig(resp: ConfigResponse)
      modifies this
      ensures !old(mounted) ==> unchanged(this)
      ensures old(mounted) ==> !isLoading
      ensures old(mounted) && ConfigAccepted(resp) ==> config == resp.data
      ensures !ConfigAccepted(resp) ==> config == old(config)
      ensures old(mounted) && LoadedMode(resp, external, supportsHls).Some? ==>
                currentMode == LoadedMode(resp, external, supportsHls)
      ensures LoadedMode(resp, external, supportsHls).None? ==> currentMode == old(currentMode)
      ensures old(mounted) && LoadedMode(resp, external, supportsHls).Some? ==>
                modeHistory == old(modeHistory) +
                  (if LoadedMode(resp, external, supportsHls) != old(currentMode)
                   then [LoadedMode(resp, external, supportsHls)] else [])
      ensures LoadedMode(resp, external, supportsHls).None? ==> modeHistory == old(modeHistory)
      ensures external == old(external) && previousMode == old(previousMode) && switchTimer == old(switchTimer)
      ensures parsedUrl == old(parsedUrl) && parseError == old(parseError) && isParsing == old(isParsing)
      ensures mounted == old(mounted) && lastParsed == old(lastParsed) && videoUrl == old(videoUrl)
      ensures parseProxy == old(parseProxy) && iframeIndex == old(iframeIndex)
    {
      if !mounted {
        return;
      }
      if ConfigAccepted(resp) {
        config := resp.data;
      }
      var m := LoadedMode(resp, external, supportsHls);
      if m.Some? {
        SetMode(m);
      }
      isLoading := false;
    }

    /** The effect would change nothing if it ran again. */
    predicate Settled()
      reads this
    {
      external.None? || previousMode == external || currentMode == external
    }

    /** One run of the mode-switch effect, preceded by the previous run's cleanup. */
    method ModeEffect()
      modifies this
      ensures external == old(external) && config == old(config) && isLoading == old(isLoading)
      ensures parsedUrl == old(parsedUrl) && parseError == old(parseError) && isParsing == old(isParsing)
      ensures mounted == old(mounted) && videoUrl == old(videoUrl) && iframeIndex == old(iframeIndex)
      ensures lastParsed == old(lastParsed) && parseProxy == old(parseProxy)
      ensures old(Settled()) ==> currentMode == old(currentMode) && previousMode == old(previousMode)
                                 && modeHistory == old(modeHistory) && switchTimer.None?
      ensures !old(Settled()) && old(currentMode).None? ==>
                currentMode == external && previousMode == external
                && modeHistory == old(modeHistory) + [external] && switchTimer.None?
      ensures !old(Settled()) && old(currentMode).Some? ==>
                currentMode.None? && previousMode == old(previousMode)
                && modeHistory == old(modeHistory) + [None] && switchTimer == external
    {
      switchTimer := None;
      if external.None? {
        return;
      }
      var e := external.value;
      if Some(e) != previousMode {
        switchTimer := None;
        if currentMode.Some? && currentMode.value != e {
          SetMode(None);
          switchTimer := Some(e);
        } else if currentMode.None? {
          SetMode(Some(e));
          previousMode := Some(e);
        }
      }
    }

    /** The effect re-run after each change of the mode until it changes nothing. */
    method Settle()
      modifies this
      ensures Settled() && switchTimer.None?
      ensures external == old(external) && config == old(config) && isLoading == old(isLoading)
      ensures parsedUrl == old(parsedUrl) && parseError == old(parseError) && isParsing == old(isParsing)
      ensures mounted == old(mounted) && videoUrl == old(videoUrl) && iframeIndex == old(iframeIndex)
      ensures lastParsed == old(lastParsed) && parseProxy == old(parseProxy)
      ensures old(Settled()) ==> currentMode == old(currentMode) && modeHistory == old(modeHistory)
                                 && previousMode == old(previousMode)
      ensures !old(Settled()) ==> currentMode == external && previousMode == external
      ensures !old(Settled()) && old(currentMode).None? ==> modeHistory == old(modeHistory) + [external]
      ensures !old(Settled()) && old(currentMode).Some? ==> modeHistory == old(modeHistory) + [None, external]
    {
      var before := currentMode;
      ModeEffect();
      if currentMode != before {
        ModeEffect();
      }
    }

    /** The 100 ms switch timer fires. */
    method FireSwitchTimer()
      modifies this
      ensures switchTimer.None?
      ensures old(switchTimer).Some? && old(mounted) ==>
                currentMode == old(switchTimer) && previousMode == old(switchTimer)
      ensures old(switchTimer).Some? && old(mounted) ==>
                modeHistory == old(modeHistory) + (if old(switchTimer) != old(currentMode) then [old(switchTimer)] else [])
      ensures !(old(switchTimer).Some? && old(mounted)) ==>
                currentMode == old(currentMode) && previousMode == old(previousMode) && modeHistory == old(modeHistory)
      ensures external == old(external) && config == old(config) && isLoading == old(isLoading)
      ensures parsedUrl == old(parsedUrl) && parseError == old(parseError) && isParsing == old(isParsing)
      ensures mounted == old(mounted) && lastParsed == old(lastParsed) && videoUrl == old(videoUrl)
      ensures parseProxy == old(parseProxy) && iframeIndex == old(iframeIndex)
    {
      if switchTimer.Some? && mounted {
        SetMode(switchTimer);
        previousMode := switchTimer;
      }
      switchTimer := None;
    }

    /** A new external mode: the old player is unmounted before the new one is shown. */
    method SetExternalMode(e: Option<Mode>)
      modifies this
      ensures external == e && Settled() && switchTimer.None?
      ensures e.Some? && e != old(previousMode) && old(currentMode).Some? && old(currentMode) != e ==>
                currentMode == e && modeHistory == old(modeHistory) + [None, e]
      ensures e.Some? && e != old(previousMode) && old(currentMode).None? ==>
                currentMode == e && modeHistory == old(modeHistory) + [e]
      ensures e.Some? && e != old(previousMode) && old(currentMode) != e ==> previousMode == e
      ensures e.None? || e == old(previousMode) || old(currentMode) == e ==>
                currentMode == old(currentMode) && modeHistory == old(modeHistory) && previousMode == old(previousMode)
      ensures config == old(config) && parsedUrl == old(parsedUrl) && parseError == old(parseError)
      ensures isLoading == old(isLoading) && isParsing == old(isParsing) && mounted == old(mounted)
      ensures lastParsed == old(lastParsed) && videoUrl == old(videoUrl) && parseProxy == old(parseProxy)
      ensures iframeIndex == old(iframeIndex)
    {
      external := e;
      Settle();
    }

    /** The effect has recorded the external mode it last applied. */
    predicate Recorded()
      reads this
    {
      external.None? || previousMode == external
    }

    /**
      The local player reported a non-retryable error: `local` is downgraded,
      and the mode effect runs on the new mode. Once the effect has recorded
      the external mode (as it has from the first render on), the downgrade
      sticks; before that, the effect puts the external mode back.
     */
    method OnPlayerError()
      modifies this
      ensures old(Recorded()) ==> currentMode == Downgrade(old(currentMode)) && currentMode != Some(LocalMode)
      ensures old(Recorded()) ==>
                modeHistory == old(modeHistory) + (if old(currentMode) == Some(LocalMode) then [Some(IframeMode)] else [])
      ensures old(Recorded()) || Downgrade(old(currentMode)) == old(external) ==>
                currentMode == Downgrade(old(currentMode)) && previousMode == old(previousMode)
                && modeHistory == old(modeHistory) + (if old(currentMode) == Some(LocalMode) then [Some(IframeMode)] else [])
      ensures !old(Recorded()) && Downgrade(old(currentMode)) != old(external) ==>
                currentMode == old(external) && previousMode == old(external)
                && modeHistory == old(modeHistory) + (if old(currentMode) == Some(LocalMode) then [Some(IframeMode)] else [])
                                  + (if Downgrade(old(currentMode)).None? then [old(external)] else [None, old(external)])
      ensures Settled() && switchTimer.None? && external == old(external) && config == old(config)
      ensures isLoading == old(isLoading) && parsedUrl == old(parsedUrl) && parseError == old(parseError)
      ensures isParsing == old(isParsing) && lastParsed == old(lastParsed) && videoUrl == old(videoUrl)
      ensures parseProxy == old(parseProxy) && iframeIndex == old(iframeIndex) && mounted == old(mounted)
    {
      SetMode(Downgrade(currentMode));
      Settle();
    }

    /**
      Unmounting: the mounted flag is cleared, and the mode effect's cleanup
      cancels a pending 100 ms switch timer; nothing else changes.
     */
    method Unmount()
      modifies this
      ensures !mounted && switchTimer.None?
      ensures currentMode == old(currentMode) && config == old(config) && external == old(external)
      ensures previousMode == old(previousMode) && modeHistory == old(modeHistory)
      ensures parsedUrl == old(parsedUrl) && parseError == old(parseError) && isParsing == old(isParsing)
      ensures isLoading == old(isLoading) && lastParsed == old(lastParsed) && videoUrl == old(videoUrl)
      ensures parseProxy == old(parseProxy) && iframeIndex == old(iframeIndex)
    {
      mounted := false;
      switchTimer := None;
    }

    /** What the component renders. */
    function Render(): (v: View)
      reads this
      ensures ShowsPlayer(v) ==>
                !isLoading && config.Some? && currentMode.Some? && parseError.None? && !isParsing && parsedUrl.Some?
      ensures v.IframeView? <==> ShowsPlayer(v) && currentMode == Some(IframeMode)
      ensures v.LocalView? <==> ShowsPlayer(v) && currentMode == Some(LocalMode)
    {
      if isLoading || config.None? then ConfigSpinner
      else if currentMode.None? then SwitchSpinner
      else if parseError.Some? then ParseErrorPanel(parseError.value)
      else if isParsing || parsedUrl.None? || parsedUrl.value == "" then ParseSpinner
      else
        match currentMode.value
        case IframeMode => IframeView(parsedUrl.value, config.value.iframePlayers, iframeIndex)
        case LocalMode => LocalView(parsedUrl.value)
    }
  }
}

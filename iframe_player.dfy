/**
  The embedded-player fallback chain (IframePlayer): the candidate list (a
  source-specific player first, then the enabled players in priority order),
  the URL loaded into the iframe, advancing to the next candidate on a
  timeout or a load error with at most min(n, 3) candidates tried, the full
  reset, the reset on an externally chosen index, the per-candidate timeout
  and the bounded health-check poll.
 */
module IframePlayer {
  import opened Strings
  import opened VodTypes

  // ---------------------------------------------------------------------------
  // The candidate list
  // ---------------------------------------------------------------------------

  /** `players.filter(p => p.enabled)` */
  function EnabledOnly(players: seq<IframePlayerConfig>): (r: seq<IframePlayerConfig>)
    ensures forall p :: p in r <==> p in players && p.enabled
    ensures |r| <= |players|
  {
    if |players| == 0 then []
    else (if players[0].enabled then [players[0]] else []) + EnabledOnly(players[1..])
  }

  predicate SortedByPriority(s: seq<IframePlayerConfig>) {
    forall i, j :: 0 <= i < j < |s| ==> s[i].priority <= s[j].priority
  }

  /** The entries of `s` with priority `p`, in order. */
  function WithPriority(s: seq<IframePlayerConfig>, p: int): seq<IframePlayerConfig> {
    if |s| == 0 then []
    else (if s[0].priority == p then [s[0]] else []) + WithPriority(s[1..], p)
  }

  /** Places `x` before the first entry whose priority is not below its own. */
  function InsertByPriority(x: IframePlayerConfig, t: seq<IframePlayerConfig>): seq<IframePlayerConfig> {
    if |t| == 0 || x.priority <= t[0].priority then [x] + t
    else [t[0]] + InsertByPriority(x, t[1..])
  }

  /** `Array.prototype.sort` with `(a, b) => a.priority - b.priority`, which is stable. */
  function SortByPriority(s: seq<IframePlayerConfig>): (r: seq<IframePlayerConfig>)
    ensures multiset(r) == multiset(s)
  {
    if |s| == 0 then []
    else
      var t := SortByPriority(s[1..]);
      InsertMultiset(s[0], t);
      assert s == [s[0]] + s[1..];
      InsertByPriority(s[0], t)
  }

  lemma {:induction false} WithPriorityConcat(a: seq<IframePlayerConfig>, b: seq<IframePlayerConfig>, p: int)
    ensures WithPriority(a + b, p) == WithPriority(a, p) + WithPriority(b, p)
    decreases |a|
  {
    if |a| == 0 {
      assert a + b == b;
    } else {
      assert (a + b)[0] == a[0];
      assert (a + b)[1..] == a[1..] + b;
      WithPriorityConcat(a[1..], b, p);
    }
  }

  lemma {:induction false} InsertMultiset(x: IframePlayerConfig, t: seq<IframePlayerConfig>)
    ensures multiset(InsertByPriority(x, t)) == multiset{x} + multiset(t)
    decreases |t|
  {
    if !(|t| == 0 || x.priority <= t[0].priority) {
      InsertMultiset(x, t[1..]);
      assert t == [t[0]] + t[1..];
    }
  }

  lemma {:induction false} InsertSorted(x: IframePlayerConfig, t: seq<IframePlayerConfig>)
    requires SortedByPriority(t)
    ensures SortedByPriority(InsertByPriority(x, t))
    decreases |t|
  {
    if !(|t| == 0 || x.priority <= t[0].priority) {
      var rest := InsertByPriority(x, t[1..]);
      InsertSorted(x, t[1..]);
      InsertMultiset(x, t[1..]);
      var r := [t[0]] + rest;
      forall j | 0 < j < |r| ensures t[0].priority <= r[j].priority {
        assert r[j] == rest[j - 1];
        assert r[j] in multiset(rest);
        assert r[j] == x || r[j] in multiset(t[1..]);
        if r[j] != x {
          var m :| 0 <= m < |t[1..]| && t[1..][m] == r[j];
          assert t[m + 1] == r[j];
        }
      }
    }
  }

  lemma WithPrioritySingle(x: IframePlayerConfig, p: int)
    ensures WithPriority([x], p) == if x.priority == p then [x] else []
  {
    assert [x][1..] == [];
  }

  lemma {:induction false} InsertPriority(x: IframePlayerConfig, t: seq<IframePlayerConfig>, p: int)
    ensures WithPriority(InsertByPriority(x, t), p) == WithPriority([x], p) + WithPriority(t, p)
    decreases |t|
  {
    if |t| == 0 || x.priority <= t[0].priority {
      WithPriorityConcat([x], t, p);
    } else {
      var rest := InsertByPriority(x, t[1..]);
      assert InsertByPriority(x, t) == [t[0]] + rest;
      InsertPriority(x, t[1..], p);
      WithPriorityConcat([t[0]], rest, p);
      assert t == [t[0]] + t[1..];
      WithPriorityConcat([t[0]], t[1..], p);
      WithPrioritySingle(x, p);
      WithPrioritySingle(t[0], p);
      assert WithPriority([x], p) + WithPriority([t[0]], p) == WithPriority([t[0]], p) + WithPriority([x], p);
    }
  }

  /** The sort orders by priority, keeps every entry, and keeps equal priorities in their input order. */
  lemma {:induction false} SortByPriorityCorrect(s: seq<IframePlayerConfig>)
    ensures SortedByPriority(SortByPriority(s))
    ensures multiset(SortByPriority(s)) == multiset(s)
    ensures forall p :: WithPriority(SortByPriority(s), p) == WithPriority(s, p)
  {
    if |s| > 0 {
      SortByPriorityCorrect(s[1..]);
      InsertSorted(s[0], SortByPriority(s[1..]));
      InsertMultiset(s[0], SortByPriority(s[1..]));
      assert s == [s[0]] + s[1..];
      assert multiset(s) == multiset{s[0]} + multiset(s[1..]);
      forall p ensures WithPriority(SortByPriority(s), p) == WithPriority(s, p) {
        InsertPriority(s[0], SortByPriority(s[1..]), p);
        WithPriorityConcat([s[0]], s[1..], p);
      }
    }
  }

  /** The player synthesised from a source's own play URL. */
  function SourcePlayer(v: VodSource): IframePlayerConfig {
    IframePlayerConfig("vod_source_" + v.key, v.name + "播放器", v.playUrl, 0, 10000, true)
  }

  predicate HasSourcePlayer(vodSource: Option<VodSource>) {
    vodSource.Some? && vodSource.value.playUrl != ""
  }

  /** enabledPlayers */
  function Candidates(players: seq<IframePlayerConfig>, vodSource: Option<VodSource>): (c: seq<IframePlayerConfig>)
    ensures HasSourcePlayer(vodSource) ==> |c| > 0 && c[0] == SourcePlayer(vodSource.value)
    ensures multiset(c) == multiset(EnabledOnly(players))
                           + if HasSourcePlayer(vodSource) then multiset{SourcePlayer(vodSource.value)} else multiset{}
  {
    var backup := SortByPriority(EnabledOnly(players));
    if HasSourcePlayer(vodSource) then [SourcePlayer(vodSource.value)] + backup else backup
  }

  /**
    The candidate list: the source's own player first exactly when it has a
    play URL, then every enabled configured player, each once, ordered by
    priority with ties in configuration order.
   */
  lemma CandidatesShape(players: seq<IframePlayerConfig>, vodSource: Option<VodSource>)
    ensures var c := Candidates(players, vodSource);
            var k := if HasSourcePlayer(vodSource) then 1 else 0;
            && |c| == k + |EnabledOnly(players)|
            && (HasSourcePlayer(vodSource) ==>
                  c[0] == SourcePlayer(vodSource.value) && c[0].priority == 0 && c[0].timeout == 10000 && c[0].enabled)
            && SortedByPriority(c[k..])
            && multiset(c[k..]) == multiset(EnabledOnly(players))
            && (forall i :: k <= i < |c| ==> c[i].enabled && c[i] in players)
            && (forall p :: WithPriority(c[k..], p) == WithPriority(EnabledOnly(players), p))
  {
    var backup := SortByPriority(EnabledOnly(players));
    SortByPriorityCorrect(EnabledOnly(players));
    var c := Candidates(players, vodSource);
    var k := if HasSourcePlayer(vodSource) then 1 else 0;
    assert c[k..] == backup;
    assert |multiset(backup)| == |multiset(EnabledOnly(players))|;
    forall i | k <= i < |c| ensures c[i].enabled && c[i] in players {
      assert c[i] == backup[i - k];
      assert c[i] in multiset(EnabledOnly(players));
    }
  }

  /** playerUrl: the candidate's URL followed by the encoded video URL, or empty without a candidate. */
  function PlayerUrl(candidates: seq<IframePlayerConfig>, index: int, videoUrl: string): (r: string)
    ensures !(0 <= index < |candidates|) ==> r == ""
    ensures 0 <= index < |candidates| ==>
              StartsWith(r, candidates[index].url) && |r| >= |candidates[index].url| + |videoUrl|
  {
    if 0 <= index < |candidates| then candidates[index].url + EncodeUriComponent(videoUrl) else ""
  }

  /** A video URL that needs no escaping is appended as it is. */
  lemma PlainVideoUrlAppended(candidates: seq<IframePlayerConfig>, index: int, videoUrl: string)
    requires 0 <= index < |candidates|
    requires forall i :: 0 <= i < |videoUrl| ==> IsUnreserved(videoUrl[i])
    ensures PlayerUrl(candidates, index, videoUrl) == candidates[index].url + videoUrl
  {
    EncodeUnreservedIdentity(videoUrl);
  }

  // ---------------------------------------------------------------------------
  // The fallback chain as state transitions
  // ---------------------------------------------------------------------------

  /** JavaScript's `%`, which truncates toward zero. */
  function JsRem(a: int, b: int): (r: int)
    requires b > 0
    ensures a >= 0 ==> r == a % b && 0 <= r < b
    ensures a < 0 ==> -b < r <= 0
  {
    if a >= 0 then a % b else -((-a) % b)
  }

  /** At most three candidates are tried. */
  function MaxAttempts(n: nat): nat {
    if n < 3 then n else 3
  }

  datatype Chain = Chain(internalIndex: int, loadAttempts: nat, isLoading: bool, playerError: bool)

  const Initial := Chain(0, 0, true, false)

  /** currentPlayerIndex: the external index when one is supplied. */
  function CurrentIndex(c: Chain, external: Option<int>): int {
    if external.Some? then external.value else c.internalIndex
  }

  /** Whether tryNextPlayer gives up now. */
  predicate GivesUp(c: Chain, n: nat) {
    c.loadAttempts >= MaxAttempts(n) - 1
  }

  /** The index tryNextPlayer moves to; only defined when it does not give up. */
  function NextIndex(c: Chain, n: nat, external: Option<int>): int
    requires !GivesUp(c, n)
  {
    JsRem(CurrentIndex(c, external) + 1, n)
  }

  /** tryNextPlayer */
  function TryNext(c: Chain, n: nat, external: Option<int>): (r: Chain)
    ensures GivesUp(c, n) ==> r.playerError && !r.isLoading
    ensures external.Some? ==> r.internalIndex == c.internalIndex
    ensures r.loadAttempts <= c.loadAttempts + 1
  {
    if GivesUp(c, n) then c.(playerError := true, isLoading := false)
    else
      var next := NextIndex(c, n, external);
      Chain(if external.None? then next else c.internalIndex, c.loadAttempts + 1, true, c.playerError)
  }

  /** retry */
  function Retry(c: Chain, external: Option<int>): (r: Chain)
    ensures !r.playerError && r.loadAttempts == 0 && r.isLoading
    ensures external.None? ==> r.internalIndex == 0
    ensures external.Some? ==> r.internalIndex == c.internalIndex
  {
    Chain(if external.None? then 0 else c.internalIndex, 0, true, false)
  }

  /** The effect on a change of the external index. */
  function ExternalIndexReset(c: Chain, external: Option<int>): (r: Chain)
    ensures external.Some? ==> r == c.(isLoading := true, playerError := false, loadAttempts := 0)
    ensures external.None? ==> r == c
  {
    if external.Some? then c.(isLoading := true, playerError := false, loadAttempts := 0) else c
  }

  /** `k` consecutive calls of tryNextPlayer with nothing in between. */
  function RunTries(c: Chain, n: nat, external: Option<int>, k: nat): Chain
    decreases k
  {
    if k == 0 then c else TryNext(RunTries(c, n, external, k - 1), n, external)
  }

  /** retry is idempotent. */
  lemma RetryIdempotent(c: Chain, external: Option<int>)
    ensures Retry(Retry(c, external), external) == Retry(c, external)
  {
  }

  /**
    From a reset chain, the k-th consecutive tryNextPlayer gives up exactly
    when k reaches min(n, 3) (or at once when there are no candidates), and
    until then every call counts one more load.
   */
  lemma {:induction false} TriesFromReset(c: Chain, n: nat, external: Option<int>, k: nat)
    requires c.loadAttempts == 0 && !c.playerError
    ensures var r := RunTries(c, n, external, k);
            && (r.playerError <==> k >= 1 && k >= MaxAttempts(n))
            && r.loadAttempts == (if k < MaxAttempts(n) then k else if n == 0 then 0 else MaxAttempts(n) - 1)
            && (external.Some? ==> r.internalIndex == c.internalIndex)
    decreases k
  {
    if k > 0 {
      TriesFromReset(c, n, external, k - 1);
    }
  }

  /** Loads performed (the first one plus one per switch) never exceed min(n, 3) when there is a candidate. */
  lemma LoadsBounded(c: Chain, n: nat, external: Option<int>, k: nat)
    requires c.loadAttempts == 0 && !c.playerError && n > 0
    ensures RunTries(c, n, external, k).loadAttempts + 1 <= MaxAttempts(n)
  {
    TriesFromReset(c, n, external, k);
  }

  /** With the internal index, a chain reset to candidate 0 visits candidates 0, 1, ... in order. */
  lemma {:induction false} InternalVisitsInOrder(n: nat, k: nat)
    requires n > 0
    ensures RunTries(Initial, n, None, k).internalIndex == (if k < MaxAttempts(n) then k else MaxAttempts(n) - 1)
    decreases k
  {
    if k > 0 {
      InternalVisitsInOrder(n, k - 1);
      TriesFromReset(Initial, n, None, k - 1);
      var prev := RunTries(Initial, n, None, k - 1);
      if !GivesUp(prev, n) {
        assert prev.internalIndex == k - 1;
        assert NextIndex(prev, n, None) == k;
      }
    }
  }

  /** The error panel's "tried" figure, `min(loadAttempts + 1, n)`. */
  function TriedCount(c: Chain, n: nat): nat {
    if c.loadAttempts + 1 < n then c.loadAttempts + 1 else n
  }

  /** Once the chain gives up, the panel says min(n, 3) of n candidates were tried. */
  lemma GiveUpReportsCap(c: Chain, n: nat, external: Option<int>, k: nat)
    requires c.loadAttempts == 0 && !c.playerError && n > 0
    requires RunTries(c, n, external, k).playerError
    ensures TriedCount(RunTries(c, n, external, k), n) == MaxAttempts(n)
  {
    TriesFromReset(c, n, external, k);
  }

  /** The timeout effect: armed only while loading, without error, on an existing candidate, with its delay. */
  function PendingTimeout(c: Chain, candidates: seq<IframePlayerConfig>, external: Option<int>): (r: Option<int>)
    ensures r.Some? <==> c.isLoading && !c.playerError && 0 <= CurrentIndex(c, external) < |candidates|
  {
    var i := CurrentIndex(c, external);
    if c.isLoading && !c.playerError && 0 <= i < |candidates| then Some(candidates[i].timeout) else None
  }

  /** After a reset the first candidate's timeout is armed; once the chain has given up nothing is. */
  lemma TimeoutAfterTransitions(c: Chain, candidates: seq<IframePlayerConfig>, external: Option<int>)
    ensures |candidates| > 0 && external.None? ==>
              PendingTimeout(Retry(c, external), candidates, external) == Some(candidates[0].timeout)
    ensures GivesUp(c, |candidates|) ==> PendingTimeout(TryNext(c, |candidates|, external), candidates, external) == None
    ensures external.Some? && 0 <= external.value < |candidates| ==>
              PendingTimeout(ExternalIndexReset(c, external), candidates, external)
                == Some(candidates[external.value].timeout)
  {
  }

  // ---------------------------------------------------------------------------
  // The health-check poll
  // ---------------------------------------------------------------------------

  /** The poll ends on the tick that sees a content window, or on the 21st tick. */
  predicate PollStops(present: seq<bool>, k: nat)
    requires k < |present|
  {
    present[k] || k + 1 > 20
  }

  /** How many ticks run, given what each tick observes; a run of observations that ends stops the count. */
  function HealthPolls(present: seq<bool>, k: nat): (polls: nat)
    requires k <= |present|
    ensures k <= polls <= |present|
    decreases |present| - k
  {
    if k == |present| then k
    else if PollStops(present, k) then k + 1
    else HealthPolls(present, k + 1)
  }

  /** The poll never runs more than 21 ticks, and it stops on the first tick that sees a window. */
  lemma {:induction false} HealthPollsBounded(present: seq<bool>, k: nat)
    requires k <= |present| && k <= 21
    requires k > 0 ==> !PollStops(present, k - 1)
    ensures HealthPolls(present, k) <= 21
    ensures forall i :: k <= i < HealthPolls(present, k) - 1 ==> !present[i]
    ensures HealthPolls(present, k) < |present| ==>
              HealthPolls(present, k) > 0 && PollStops(present, HealthPolls(present, k) - 1)
    decreases |present| - k
  {
    if k < |present| && !PollStops(present, k) {
      HealthPollsBounded(present, k + 1);
    }
  }

  // ---------------------------------------------------------------------------
  // The component
  // ---------------------------------------------------------------------------

  datatype View =
    | NoPlayer
    /** The loading overlay, the iframe's `src` when it is shown, and the error panel's tried/total figures. */
    | Shown(overlay: bool, frameSrc: Option<string>, errorPanel: Option<(nat, nat)>, capNote: bool)

  class Player {
    const videoUrl: string
    const candidates: seq<IframePlayerConfig>
    var chain: Chain
    var external: Option<int>
    /** The arguments of every `onPlayerSwitch` call, in order. */
    var switches: seq<int>

    constructor(videoUrl: string, players: seq<IframePlayerConfig>, vodSource: Option<VodSource>, external: Option<int>)
      ensures this.videoUrl == videoUrl && candidates == Candidates(players, vodSource)
      ensures chain == Initial && this.external == external && switches == []
    {
      this.videoUrl := videoUrl;
      candidates := Candidates(players, vodSource);
      chain := Initial;
      this.external := external;
      switches := [];
    }

    function Current(): int
      reads this
    {
      CurrentIndex(chain, external)
    }

    /** The URL the iframe loads. */
    function Url(): string
      reads this
    {
      PlayerUrl(candidates, Current(), videoUrl)
    }

    /** tryNextPlayer, reached by the timeout or by the iframe's error event. */
    method TryNextPlayer()
      modifies this
      ensures chain == TryNext(old(chain), |candidates|, external)
      ensures switches == old(switches) +
                (if GivesUp(old(chain), |candidates|) then [] else [NextIndex(old(chain), |candidates|, external)])
      ensures external == old(external)
    {
      var n := |candidates|;
      var maxAttempts := if n < 3 then n else 3;
      if chain.loadAttempts >= maxAttempts - 1 {
        chain := chain.(playerError := true, isLoading := false);
        return;
      }
      var current := if external.Some? then external.value else chain.internalIndex;
      var a := current + 1;
      var next := if a >= 0 then a % n else -((-a) % n);
      if external.None? {
        chain := chain.(internalIndex := next);
      }
      chain := chain.(loadAttempts := chain.loadAttempts + 1, isLoading := true);
      switches := switches + [next];
    }

    /** The pending timeout fires; it exists only while `PendingTimeout` says it is armed. */
    method OnTimeout()
      modifies this
      ensures PendingTimeout(old(chain), candidates, external).Some? ==>
                chain == TryNext(old(chain), |candidates|, external)
      ensures PendingTimeout(old(chain), candidates, external).Some? ==>
                switches == old(switches) +
                  (if GivesUp(old(chain), |candidates|) then [] else [NextIndex(old(chain), |candidates|, external)])
      ensures PendingTimeout(old(chain), candidates, external).None? ==>
                chain == old(chain) && switches == old(switches)
      ensures external == old(external)
    {
      if PendingTimeout(chain, candidates, external).Some? {
        TryNextPlayer();
      }
    }

    /** retry */
    method RetryAll()
      modifies this
      ensures chain == Retry(old(chain), external) && switches == old(switches) + [0]
      ensures external == old(external)
    {
      chain := Retry(chain, external);
      switches := switches + [0];
    }

    /** A new `currentPlayerIndex` prop; the reset effect runs only when the value changes. */
    method SetExternalIndex(e: Option<int>)
      modifies this
      ensures external == e && switches == old(switches)
      ensures e != old(external) ==> chain == ExternalIndexReset(old(chain), e)
      ensures e == old(external) ==> chain == old(chain)
    {
      if e != external {
        chain := ExternalIndexReset(chain, e);
      }
      external := e;
    }

    /** The 300 ms timer started by the iframe's load event. */
    method OnIframeLoaded()
      modifies this
      ensures chain == old(chain).(isLoading := false) && external == old(external) && switches == old(switches)
      ensures PendingTimeout(chain, candidates, external).None?
    {
      chain := chain.(isLoading := false);
    }

    /**
      startHealthCheck, run until its interval is cleared. `present[k]` is
      whether tick k sees the iframe's content window; the run also ends when
      the observations do.
     */
    method HealthCheck(present: seq<bool>) returns (polls: nat, found: bool)
      modifies this
      ensures polls == HealthPolls(present, 0) && polls <= 21
      ensures found <==> polls > 0 && present[polls - 1]
      ensures forall i :: 0 <= i < polls - 1 ==> !present[i]
      ensures chain == (if found then old(chain).(isLoading := false) else old(chain))
      ensures external == old(external) && switches == old(switches)
    {
      HealthPollsBounded(present, 0);
      polls := 0;
      found := false;
      var running := true;
      while running && polls < |present|
        invariant polls <= |present|
        invariant running ==> HealthPolls(present, polls) == HealthPolls(present, 0)
        invariant running ==> !found && (polls > 0 ==> !PollStops(present, polls - 1))
        invariant !running ==> polls > 0 && PollStops(present, polls - 1) && polls == HealthPolls(present, 0)
        invariant found <==> polls > 0 && present[polls - 1]
        invariant chain == (if found then old(chain).(isLoading := false) else old(chain))
        invariant external == old(external) && switches == old(switches)
        decreases |present| - polls, running
      {
        polls := polls + 1;
        if present[polls - 1] {
          chain := chain.(isLoading := false);
          found := true;
          running := false;
        }
        if polls > 20 {
          running := false;
        }
      }
    }

    /** What the component renders. */
    function Render(): (v: View)
      reads this
      ensures v.NoPlayer? <==> !(0 <= Current() < |candidates|)
      ensures v.Shown? ==> (v.frameSrc.Some? ==> v.errorPanel.None?)
      ensures v.Shown? ==> (v.errorPanel.Some? <==> chain.playerError)
      ensures v.Shown? ==> (v.overlay <==> chain.isLoading)
    {
      if !(0 <= Current() < |candidates|) then NoPlayer
      else
        var url := Url();
        Shown(chain.isLoading,
              if !chain.playerError && url != "" then Some(url) else None,
              if chain.playerError then Some((TriedCount(chain, |candidates|), |candidates|)) else None,
              chain.playerError && |candidates| > 3)
    }
  }
}

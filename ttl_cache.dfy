/**
  The in-memory TTL cache that both lib/cache.ts and lib/redis.ts define
  under the name MemoryCache: a Map from key to a serialized value and an
  absolute expiry time in milliseconds. `Date.now()` is the parameter `now`;
  JSON serialization is the identity on the stored string. The two copies
  differ only in how `set` turns its optional ttl into seconds, which is the
  cache's `SetPolicy`.
 */
module TtlCache {
  import opened Strings

  datatype Entry = Entry(value: string, expireAt: int)

  /** How `set` derives the lifetime in seconds from its optional `ttl` argument. */
  datatype SetPolicy =
    /** lib/cache.ts: `ttl || this.defaultTTL`, so an omitted or zero ttl means the default. */
    | FalsyTtlUsesDefault(defaultTtl: int)
    /** lib/redis.ts: the parameter default `ttl = 3600` applies only to an omitted ttl. */
    | OmittedTtlUsesHour

  const HourSeconds := 3600

  function Lifetime(policy: SetPolicy, ttl: Option<int>): (seconds: int)
    ensures ttl.Some? && ttl.value != 0 ==> seconds == ttl.value
    ensures ttl.None? ==> seconds == (if policy.FalsyTtlUsesDefault? then policy.defaultTtl else HourSeconds)
    ensures ttl == Some(0) ==> seconds == (if policy.FalsyTtlUsesDefault? then policy.defaultTtl else 0)
  {
    match policy
    case FalsyTtlUsesDefault(d) => if ttl.None? || ttl.value == 0 then d else ttl.value
    case OmittedTtlUsesHour => if ttl.None? then HourSeconds else ttl.value
  }

  /** The entry `set` stores at time `now`. */
  function Stored(policy: SetPolicy, value: string, ttl: Option<int>, now: int): (e: Entry)
    ensures e.value == value
    ensures e.expireAt - now == Lifetime(policy, ttl) * 1000
  {
    Entry(value, now + Lifetime(policy, ttl) * 1000)
  }

  /** An entry is live while `now <= expireAt` (the expiry instant itself is still live). */
  predicate Live(m: map<string, Entry>, key: string, now: int) {
    key in m && now <= m[key].expireAt
  }

  /** What `get` returns. */
  function Lookup(m: map<string, Entry>, key: string, now: int): (r: Option<string>)
    ensures r.Some? <==> Live(m, key, now)
    ensures r.Some? ==> r.value == m[key].value
  {
    if Live(m, key, now) then Some(m[key].value) else None
  }

  /** The map after `get`: an expired entry of `key` is evicted, nothing else changes. */
  function AfterGet(m: map<string, Entry>, key: string, now: int): (m': map<string, Entry>)
    ensures key in m && !Live(m, key, now) ==> m' == m - {key}
    ensures key !in m || Live(m, key, now) ==> m' == m
  {
    if key in m && now > m[key].expireAt then m - {key} else m
  }

  /** What `ttl` reports: -2 for a missing key, -1 below one whole second, else whole seconds left. */
  function TtlOf(m: map<string, Entry>, key: string, now: int): (t: int)
    ensures t == -2 <==> key !in m
    ensures t == -1 <==> key in m && m[key].expireAt - now < 1000
    ensures t >= 1 ==> key in m && t * 1000 <= m[key].expireAt - now < (t + 1) * 1000
    ensures t >= -2 && t != 0
  {
    if key !in m then -2
    else
      var remaining := (m[key].expireAt - now) / 1000;
      if remaining > 0 then remaining else -1
  }

  /** The keys `delPattern` removes. */
  function MatchingKeys(m: map<string, Entry>, matches: string -> bool): set<string> {
    set k | k in m && matches(k)
  }

  /** The map without the keys that match. */
  function WithoutMatching(m: map<string, Entry>, matches: string -> bool): (m': map<string, Entry>)
    ensures m'.Keys == m.Keys - MatchingKeys(m, matches)
    ensures forall k :: k in m' ==> m'[k] == m[k]
  {
    map k | k in m && !matches(k) :: m[k]
  }

  /**
    Progress of the delPattern loop over the keys of `original`: the keys
    still to visit, the matching keys already deleted from `m`, and the count.
   */
  ghost predicate Sweep(original: map<string, Entry>, matches: string -> bool, keys: set<string>,
                        removed: set<string>, m: map<string, Entry>, count: int)
  {
    && keys <= original.Keys
    && removed == MatchingKeys(original, matches) - keys
    && m.Keys == original.Keys - removed
    && (forall k :: k in m ==> m[k] == original[k])
    && count == |removed|
  }

  lemma SweepStep(original: map<string, Entry>, matches: string -> bool, keys: set<string>,
                  removed: set<string>, m: map<string, Entry>, count: int, key: string)
    requires Sweep(original, matches, keys, removed, m, count) && key in keys
    ensures matches(key) ==> Sweep(original, matches, keys - {key}, removed + {key}, m - {key}, count + 1)
    ensures !matches(key) ==> Sweep(original, matches, keys - {key}, removed, m, count)
  {
    if matches(key) {
      assert key !in removed;
      assert MatchingKeys(original, matches) - (keys - {key}) == removed + {key};
    } else {
      assert MatchingKeys(original, matches) - (keys - {key}) == removed;
    }
  }

  lemma SweepDone(original: map<string, Entry>, matches: string -> bool, removed: set<string>,
                  m: map<string, Entry>, count: int)
    requires Sweep(original, matches, {}, removed, m, count)
    ensures m == WithoutMatching(original, matches)
    ensures count == |MatchingKeys(original, matches)|
  {
    assert removed == MatchingKeys(original, matches);
  }

  /** `pattern.replace("*", ".*")`: only the first `*` is widened. */
  function RegexSource(pattern: string): (r: string)
    ensures '*' !in pattern ==> r == pattern
    ensures |r| == |pattern| + (if '*' in pattern then 1 else 0)
  {
    match IndexOf(pattern, "*")
    case None =>
      assert forall j :: 0 <= j < |pattern| ==> pattern[j] != '*' by {
        forall j | 0 <= j < |pattern| ensures pattern[j] != '*' {
          assert !MatchAt(pattern, "*", j);
        }
      }
      pattern
    case Some(i) =>
      assert pattern[i] == "*"[0] by { assert pattern[i..i + 1] == "*"; }
      pattern[..i] + ".*" + pattern[i + 1..]
  }

  class MemoryCache {
    var entries: map<string, Entry>
    const policy: SetPolicy

    constructor(policy: SetPolicy)
      ensures entries == map[] && this.policy == policy
    {
      entries := map[];
      this.policy := policy;
    }

    method Get(key: string, now: int) returns (r: Option<string>)
      modifies this
      ensures r == Lookup(old(entries), key, now)
      ensures entries == AfterGet(old(entries), key, now)
    {
      if key !in entries {
        return None;
      }
      if now > entries[key].expireAt {
        entries := entries - {key};
        return None;
      }
      return Some(entries[key].value);
    }

    method Set(key: string, value: string, ttl: Option<int>, now: int) returns (ok: bool)
      modifies this
      ensures ok
      ensures entries == old(entries)[key := Stored(policy, value, ttl, now)]
    {
      var expiration := Lifetime(policy, ttl);
      entries := entries[key := Entry(value, now + expiration * 1000)];
      return true;
    }

    method Del(key: string) returns (present: bool)
      modifies this
      ensures present <==> key in old(entries)
      ensures entries == old(entries) - {key}
    {
      present := key in entries;
      entries := entries - {key};
    }

    method Exists(key: string, now: int) returns (b: bool)
      ensures b == Live(entries, key, now)
    {
      b := key in entries && now <= entries[key].expireAt;
    }

    /** `matches` stands for `regex.test` on the key, with the regex built by `RegexSource`. */
    method DelPattern(matches: string -> bool) returns (count: nat)
      modifies this
      ensures entries == WithoutMatching(old(entries), matches)
      ensures count == |MatchingKeys(old(entries), matches)|
    {
      var m := entries;
      ghost var original := m;
      ghost var removed: set<string> := {};
      var keys := m.Keys;
      count := 0;
      while keys != {}
        invariant Sweep(original, matches, keys, removed, m, count)
        decreases |keys|
      {
        var key :| key in keys;
        SweepStep(original, matches, keys, removed, m, count, key);
        if matches(key) {
          m := m - {key};
          count := count + 1;
          removed := removed + {key};
        }
        keys := keys - {key};
      }
      SweepDone(original, matches, removed, m, count);
      entries := m;
    }

    method Ttl(key: string, now: int) returns (t: int)
      ensures t == TtlOf(entries, key, now)
    {
      if key !in entries {
        return -2;
      }
      var remaining := (entries[key].expireAt - now) / 1000;
      t := if remaining > 0 then remaining else -1;
    }
  }

  // ---------------------------------------------------------------------------
  // Properties
  // ---------------------------------------------------------------------------

  /** A value set and read back before it expires, with no write in between, is returned. */
  lemma GetAfterSet(m: map<string, Entry>, policy: SetPolicy, key: string, value: string, ttl: Option<int>,
                    setAt: int, now: int)
    requires now <= setAt + Lifetime(policy, ttl) * 1000
    ensures Lookup(m[key := Stored(policy, value, ttl, setAt)], key, now) == Some(value)
    ensures AfterGet(m[key := Stored(policy, value, ttl, setAt)], key, now) == m[key := Stored(policy, value, ttl, setAt)]
  {
  }

  /** Writing one key leaves every other key's reading unchanged. */
  lemma SetIsolated(m: map<string, Entry>, policy: SetPolicy, key: string, other: string, value: string,
                    ttl: Option<int>, setAt: int, now: int)
    requires other != key
    ensures Lookup(m[key := Stored(policy, value, ttl, setAt)], other, now) == Lookup(m, other, now)
    ensures TtlOf(m[key := Stored(policy, value, ttl, setAt)], other, now) == TtlOf(m, other, now)
  {
  }

  /** Right after a set with a positive lifetime, `ttl` reports exactly that lifetime. */
  lemma TtlAfterSet(m: map<string, Entry>, policy: SetPolicy, key: string, value: string, ttl: Option<int>,
                    now: int)
    requires Lifetime(policy, ttl) > 0
    ensures TtlOf(m[key := Stored(policy, value, ttl, now)], key, now) == Lifetime(policy, ttl)
  {
    var s := Lifetime(policy, ttl);
    assert (s * 1000) / 1000 == s;
  }

  /** In lib/redis.ts a ttl of 0 stores an entry that expires at the instant it is written. */
  lemma ZeroTtlExpiresAtOnce(value: string, now: int)
    ensures Stored(OmittedTtlUsesHour, value, Some(0), now).expireAt == now
    ensures Stored(FalsyTtlUsesDefault(HourSeconds), value, Some(0), now).expireAt == now + 3600000
  {
  }

  /** A live entry and its `ttl` agree: a live key never reports -2, an expired one reports -1. */
  lemma LiveAndTtl(m: map<string, Entry>, key: string, now: int)
    ensures Live(m, key, now) ==> TtlOf(m, key, now) != -2
    ensures key in m && !Live(m, key, now) ==> TtlOf(m, key, now) == -1
  {
  }
}

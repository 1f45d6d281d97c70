/**
  lib/redis.ts: the reconnect policy handed to the Redis client, and the
  in-memory fallback cache that is used when no Redis URL is configured.
  The Redis client itself is not part of this model.
 */
module Redis {
  import opened Strings
  import opened TtlCache

  /** retryStrategy: a delay that grows by 50 ms per attempt, capped at 2000 ms. */
  function ReconnectDelay(times: int): (delay: int)
    ensures delay <= 2000 && delay <= times * 50
    ensures delay == 2000 || delay == times * 50
    ensures times >= 40 ==> delay == 2000
  {
    if times * 50 < 2000 then times * 50 else 2000
  }

  /** The delay never shrinks as the attempt count grows. */
  lemma ReconnectDelayMonotone(a: int, b: int)
    requires a <= b
    ensures ReconnectDelay(a) <= ReconnectDelay(b)
  {
  }

  const TargetErrors: seq<string> := ["READONLY", "ECONNRESET", "ETIMEDOUT"]

  /** `targets.some(t => message.includes(t))` */
  function SomeContained(message: string, targets: seq<string>): (b: bool)
    ensures b <==> exists k :: 0 <= k < |targets| && Contains(message, targets[k])
    decreases |targets|
  {
    if |targets| == 0 then false
    else Contains(message, targets[0]) || SomeContained(message, targets[1..])
  }

  /** reconnectOnError */
  function ReconnectOnError(message: string): bool {
    SomeContained(message, TargetErrors)
  }

  /** The reconnect filter accepts exactly the three listed error messages. */
  lemma ReconnectOnErrorCases(message: string)
    ensures ReconnectOnError(message) <==>
              Contains(message, "READONLY") || Contains(message, "ECONNRESET") || Contains(message, "ETIMEDOUT")
  {
    assert TargetErrors[0] == "READONLY" && TargetErrors[1] == "ECONNRESET" && TargetErrors[2] == "ETIMEDOUT";
  }

  /** createCache without a Redis URL: the fallback MemoryCache, whose `set` defaults only an omitted ttl. */
  method CreateFallbackCache() returns (c: MemoryCache)
    ensures fresh(c) && c.entries == map[] && c.policy == OmittedTtlUsesHour
  {
    c := new MemoryCache(OmittedTtlUsesHour);
  }
}

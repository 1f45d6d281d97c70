/**
  checkCorsSupport: a HEAD request in CORS mode with a 3000 ms abort timer,
  whose outcome is mapped onto the four CorsCheckResult shapes. The request
  itself is outside the model; its outcome is the input.
 */
module CorsCheck {
  import opened Strings
  import opened PlayerTypes

  /** The abort timer of the probe, in milliseconds. */
  const ProbeTimeoutMs := 3000

  /** What the awaited fetch produced: a response, or a thrown value. */
  datatype FetchOutcome =
    | Response(ok: bool, status: int)
    /** A thrown value; the 3000 ms abort throws an AbortError, which is not a TypeError. */
    | Thrown(isTypeError: bool, message: string)

  /** The outcome the probe sees when its abort timer fires first. */
  const AbortOutcome := Thrown(false, "The operation was aborted.")

  function CheckCorsSupport(outcome: FetchOutcome): (r: CorsCheckResult)
    ensures r.Success() <==> outcome.Response? && outcome.ok
    ensures r.Expired? <==> outcome.Response? && !outcome.ok
    ensures r.Expired? ==> r.code == outcome.status
    ensures r.CorsBlocked? <==> outcome.Thrown? && outcome.isTypeError && Contains(outcome.message, "Failed to fetch")
    ensures r.NetworkFailure? <==>
              outcome.Thrown? && !(outcome.isTypeError && Contains(outcome.message, "Failed to fetch"))
  {
    match outcome
    case Response(ok, status) => if ok then CorsOk else Expired(status)
    case Thrown(isTypeError, message) =>
      if isTypeError && Contains(message, "Failed to fetch") then CorsBlocked else NetworkFailure
  }

  /** A probe cut off by its abort timer is reported as a network failure. */
  lemma AbortIsNetworkFailure()
    ensures CheckCorsSupport(AbortOutcome) == NetworkFailure
  {
  }
}

/**
  The player's shared record types: the error kinds a player reports, the
  error record handed to the UI, the fields of an hls.js error event that the
  error policy reads, and the four outcomes of the CORS probe.
 */
module PlayerTypes {
  import opened Strings

  /** ErrorType */
  datatype ErrorKind = Network | Media | Key | Manifest | Fragment | Unknown

  /** PlayerError: kind, message, and whether a retry is offered. */
  datatype PlayerError = PlayerError(kind: ErrorKind, message: string, canRetry: bool)

  /** The fields of HlsErrorData that the error policy reads. */
  datatype HlsErrorData = HlsErrorData(errorType: Option<string>, details: Option<string>, fatal: bool,
                                       httpCode: Option<int>)

  /** CorsCheckResult: the four shapes of the probe outcome. */
  datatype CorsCheckResult =
    | CorsOk
    | CorsBlocked
    | Expired(code: int)
    | NetworkFailure
  {
    /** The `success` field shared by every shape. */
    predicate Success() {
      this.CorsOk?
    }
  }
}

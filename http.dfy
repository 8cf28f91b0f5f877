/** The part of an HTTP exchange the salary services depend on. */
module Http {

  /**
   * A provider's answer to one page request: the HTTP status code and the
   * already-decoded JSON body. The body is only read when the status passes
   * `raise_for_status`.
   */
  datatype Response<B> = Response(status: int, body: B)

  /**
   * `raise_for_status` raises for every client error (4xx) and every server
   * error (5xx) status, and lets any other status through.
   */
  predicate RaisesForStatus(status: int)
  {
    400 <= status < 600
  }
}

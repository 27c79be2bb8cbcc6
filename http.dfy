/** Responses of the TMDB API, as `requests` hands them back. */
module Http {
  import opened Json

  /** An HTTP response, its body already decoded. */
  datatype Response = Response(status: int, body: Value)
}

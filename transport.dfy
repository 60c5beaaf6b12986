/** What the model sees of a libcurl exchange: the request it would send and
    the outcome the transport reports. The transfer itself is not modelled. */
module Transport {
  import opened CppStd
  import opened Json

  /** CURLcode values the SDK distinguishes. */
  const CURLE_OK: int := 0
  const CURLE_COULDNT_RESOLVE_HOST: int := 6
  const CURLE_COULDNT_CONNECT: int := 7
  const CURLE_OPERATION_TIMEDOUT: int := 28
  const CURLE_SSL_CONNECT_ERROR: int := 35

  /** One attempted exchange: either `curl_easy_init` failed, or the transfer
      ran and reported its CURLcode, that code's `curl_easy_strerror` text, the
      HTTP status (`CURLINFO_RESPONSE_CODE`) and the parsed body. */
  datatype Exchange =
    | CurlInitFailed
    | Performed(res: int, resText: string, httpCode: int, body: Payload)

  /** A request as handed to libcurl. */
  datatype HttpRequest = HttpRequest(verb: string, url: string, headers: seq<string>, body: Option<Json>)
}

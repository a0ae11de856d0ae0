/** What the translators send and what the scripted transport gives back in place of
    aiohttp: one outcome per GET. */
module Http {
  import opened PyJson

  /** What `await response.json()` does with the body. */
  datatype Body =
    | Parsed(json: Json)       // the decoded body
    | NotJson(reason: string)  // aiohttp's ContentTypeError, a ClientError
    | Undecodable              // json.JSONDecodeError, a ValueError

  datatype Response = Response(status: int, headers: map<string, string>, body: Body)

  /** One GET: an aiohttp ClientError raised by the transport, or a response. */
  datatype Outcome = TransportFailure(reason: string) | Responded(response: Response)

  /** A GET as issued: the URL and the request headers. */
  datatype Request = Request(url: string, headers: map<string, string>)
}

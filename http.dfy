/**
 * The transport side of the handler: outcomes that become an HTTP status, the
 * abstract response payloads, and `buildResponse` with its fixed header set.
 */
module Http {
  import opened Json

  /** Why a request ended in an internal error (the `error.message` in a 500 body). */
  datatype Fault =
    | StoreFailure(message: string)  // the store call itself failed (network, throttling, permissions)
    | KeyRejected                    // the store refused the key: not a non-empty string
    | BodyRejected                   // the body is not JSON text, or parses to null, a string, a number or a boolean

  /** The value handed to `JSON.stringify` as the response body. */
  datatype Payload =
    | ItemBody(item: Item)
    | ItemList(items: seq<Item>)
    | Message(message: string)
    | ServerError(message: string, error: Fault)

  datatype Response = Response(statusCode: int, headers: seq<(string, string)>, body: Payload)

  /** The cross-origin header set every response carries, in the source's order. */
  const StandardHeaders: seq<(string, string)> := [
    ("Content-Type", "application/json"),
    ("Access-Control-Allow-Origin", "*"),
    ("Access-Control-Allow-Methods", "GET, POST, PUT, DELETE, OPTIONS"),
    ("Access-Control-Allow-Headers", "Content-Type,X-Amz-Date,Authorization,X-Api-Key,X-Amz-Security-Token")
  ]

  /** Every status code the handler answers with. */
  const Statuses: set<int> := {200, 201, 400, 404, 409, 500}

  /** `buildResponse`: the status and payload, with headers that do not depend on either. */
  function BuildResponse(statusCode: int, body: Payload): (r: Response)
    ensures r.statusCode == statusCode && r.body == body
    ensures |r.headers| == 4 && r.headers[0] == ("Content-Type", "application/json")
    ensures ("Access-Control-Allow-Origin", "*") in r.headers
    ensures r.headers == StandardHeaders
  {
    Response(statusCode, StandardHeaders, body)
  }

  /** Two responses built for any statuses and payloads carry identical headers. */
  lemma HeadersIndependentOfStatus(s1: int, b1: Payload, s2: int, b2: Payload)
    ensures BuildResponse(s1, b1).headers == BuildResponse(s2, b2).headers
  {
  }
}

/**
 * The part of the server framework the routes use: a JSON value, and a
 * response object whose status and body are fixed when it is made and whose
 * header list is changed in place.
 */
module Http {
  import opened Wrappers

  /** A JSON value as `JSON.stringify` writes it; an object keeps its keys in insertion order. */
  datatype Json = JNull | JBool(b: bool) | JNum(n: int) | JStr(s: string) | JArr(items: seq<Json>) | JObj(fields: seq<(string, Json)>)

  /** The response headers the routes set; `Name` gives each its (case-insensitive) name. */
  datatype Header =
    | ContentType
    | XContentTypeOptions | XFrameOptions | XXssProtection | ReferrerPolicy | PermissionsPolicy | ContentSecurityPolicy
    | AllowOrigin | AllowMethods | AllowHeaders | MaxAge
    | RetryAfter | RateLimitLimit | RateLimitRemaining | RateLimitReset

  function Name(h: Header): string {
    match h
    case ContentType => "Content-Type"
    case XContentTypeOptions => "X-Content-Type-Options"
    case XFrameOptions => "X-Frame-Options"
    case XXssProtection => "X-XSS-Protection"
    case ReferrerPolicy => "Referrer-Policy"
    case PermissionsPolicy => "Permissions-Policy"
    case ContentSecurityPolicy => "Content-Security-Policy"
    case AllowOrigin => "Access-Control-Allow-Origin"
    case AllowMethods => "Access-Control-Allow-Methods"
    case AllowHeaders => "Access-Control-Allow-Headers"
    case MaxAge => "Access-Control-Max-Age"
    case RetryAfter => "Retry-After"
    case RateLimitLimit => "X-RateLimit-Limit"
    case RateLimitRemaining => "X-RateLimit-Remaining"
    case RateLimitReset => "X-RateLimit-Reset"
  }

  class Response {
    const status: int
    /** The body; `None` for `new NextResponse(null, ...)`. */
    const body: Option<Json>
    var headers: map<Header, string>

    constructor (status: int, body: Option<Json>, headers: map<Header, string>)
      ensures this.status == status && this.body == body && this.headers == headers
    {
      this.status := status;
      this.body := body;
      this.headers := headers;
    }
  }

  /** The headers of `NextResponse.json(body, { headers })`: the given ones plus the JSON content type. */
  function JsonHeaders(init: map<Header, string>): (r: map<Header, string>)
    ensures ContentType in r && r[ContentType] == "application/json"
    ensures forall k :: k in init && k != ContentType ==> k in r && r[k] == init[k]
  {
    init[ContentType := "application/json"]
  }

  /** `NextResponse.json(body, { status, headers })`. */
  method JsonResponse(body: Json, status: int, init: map<Header, string>) returns (r: Response)
    ensures fresh(r)
    ensures r.status == status && r.body == Some(body) && r.headers == JsonHeaders(init)
  {
    r := new Response(status, Some(body), JsonHeaders(init));
  }

  /** `{ error: message }`. */
  function ErrorJson(message: string): Json {
    JObj([("error", JStr(message))])
  }
}

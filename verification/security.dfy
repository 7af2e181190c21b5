/**
 * The two response decorators of the API routes: fixed security headers, and
 * the CORS headers for the first allowed origin.
 */
module Security {
  import opened Wrappers
  import opened Http

  /** The six headers `withSecurityHeaders` sets. */
  const SecurityHeaders: map<Header, string> := map[
    XContentTypeOptions := "nosniff",
    XFrameOptions := "DENY",
    XXssProtection := "1; mode=block",
    ReferrerPolicy := "strict-origin-when-cross-origin",
    PermissionsPolicy := "camera=(), microphone=(), geolocation=()",
    ContentSecurityPolicy := "default-src 'self'; script-src 'none'; object-src 'none';"
  ]

  /** The four headers `withCORS` sets, for the chosen origin. */
  function CorsHeaders(origin: string): map<Header, string> {
    map[
      AllowOrigin := origin,
      AllowMethods := "POST, OPTIONS",
      AllowHeaders := "Content-Type, Authorization",
      MaxAge := "86400"
    ]
  }

  /** The default origins: the configured site URL (or the local one when unset or empty), then the production site. */
  function DefaultOrigins(siteUrl: Option<string>): seq<string> {
    [if siteUrl.Some? && siteUrl.value != "" then siteUrl.value else "http://localhost:3000",
     "https://fragrancecoteroyal.netlify.app"]
  }

  /** `origins[0]` as it is written into the header; an empty list gives `undefined`, written "undefined". */
  function AllowedOrigin(allowedOrigins: Option<seq<string>>, siteUrl: Option<string>): string {
    var origins := if allowedOrigins.Some? then allowedOrigins.value else DefaultOrigins(siteUrl);
    if |origins| > 0 then origins[0] else "undefined"
  }

  /** The six successive `set` calls of `withSecurityHeaders` amount to merging in `SecurityHeaders`. */
  lemma SetsAreMerge(m: map<Header, string>)
    ensures m[XContentTypeOptions := "nosniff"][XFrameOptions := "DENY"][XXssProtection := "1; mode=block"]
             [ReferrerPolicy := "strict-origin-when-cross-origin"]
             [PermissionsPolicy := "camera=(), microphone=(), geolocation=()"]
             [ContentSecurityPolicy := "default-src 'self'; script-src 'none'; object-src 'none';"]
            == m + SecurityHeaders
  {
    var r := m[XContentTypeOptions := "nosniff"][XFrameOptions := "DENY"][XXssProtection := "1; mode=block"]
             [ReferrerPolicy := "strict-origin-when-cross-origin"]
             [PermissionsPolicy := "camera=(), microphone=(), geolocation=()"]
             [ContentSecurityPolicy := "default-src 'self'; script-src 'none'; object-src 'none';"];
    assert r.Keys == m.Keys + SecurityHeaders.Keys;
    forall k | k in r ensures r[k] == (m + SecurityHeaders)[k] {
      if k in SecurityHeaders {
        assert r[k] == SecurityHeaders[k];
      }
    }
  }

  /** `withSecurityHeaders`: sets the six headers on the response and returns the same response. */
  method WithSecurityHeaders(response: Response) returns (r: Response)
    modifies response
    ensures r == response
    ensures response.headers == old(response.headers) + SecurityHeaders
  {
    ghost var before := response.headers;
    response.headers := response.headers[XContentTypeOptions := "nosniff"];
    response.headers := response.headers[XFrameOptions := "DENY"];
    response.headers := response.headers[XXssProtection := "1; mode=block"];
    response.headers := response.headers[ReferrerPolicy := "strict-origin-when-cross-origin"];
    response.headers := response.headers[PermissionsPolicy := "camera=(), microphone=(), geolocation=()"];
    response.headers := response.headers[ContentSecurityPolicy := "default-src 'self'; script-src 'none'; object-src 'none';"];
    SetsAreMerge(before);
    return response;
  }

  /** The four successive `set` calls of `withCORS` amount to merging in `CorsHeaders(origin)`. */
  lemma CorsSetsAreMerge(m: map<Header, string>, origin: string)
    ensures m[AllowOrigin := origin][AllowMethods := "POST, OPTIONS"][AllowHeaders := "Content-Type, Authorization"]
             [MaxAge := "86400"]
            == m + CorsHeaders(origin)
  {
    var r := m[AllowOrigin := origin][AllowMethods := "POST, OPTIONS"][AllowHeaders := "Content-Type, Authorization"]
             [MaxAge := "86400"];
    assert r.Keys == m.Keys + CorsHeaders(origin).Keys;
    forall k | k in r ensures r[k] == (m + CorsHeaders(origin))[k] {
      if k in CorsHeaders(origin) {
        assert r[k] == CorsHeaders(origin)[k];
      }
    }
  }

  /** `withCORS`: sets the four headers on the response and returns the same response. */
  method WithCors(response: Response, allowedOrigins: Option<seq<string>>, siteUrl: Option<string>) returns (r: Response)
    modifies response
    ensures r == response
    ensures response.headers == old(response.headers) + CorsHeaders(AllowedOrigin(allowedOrigins, siteUrl))
  {
    var origins := if allowedOrigins.Some? then allowedOrigins.value else DefaultOrigins(siteUrl);
    var origin := if |origins| > 0 then origins[0] else "undefined";
    response.headers := response.headers[AllowOrigin := origin];
    response.headers := response.headers[AllowMethods := "POST, OPTIONS"];
    response.headers := response.headers[AllowHeaders := "Content-Type, Authorization"];
    response.headers := response.headers[MaxAge := "86400"];
    CorsSetsAreMerge(old(response.headers), origin);
    return response;
  }

  /** The headers after both decorators, in the order the routes apply them. */
  function Decorated(headers: map<Header, string>, siteUrl: Option<string>): map<Header, string> {
    headers + SecurityHeaders + CorsHeaders(AllowedOrigin(None, siteUrl))
  }

  /** The allowed origin: the first given one, else the configured site, else the local one. */
  lemma AllowedOriginCases(allowedOrigins: Option<seq<string>>, siteUrl: Option<string>)
    ensures allowedOrigins.Some? && |allowedOrigins.value| > 0 ==> AllowedOrigin(allowedOrigins, siteUrl) == allowedOrigins.value[0]
    ensures allowedOrigins == Some([]) ==> AllowedOrigin(allowedOrigins, siteUrl) == "undefined"
    ensures allowedOrigins.None? && siteUrl.Some? && siteUrl.value != "" ==> AllowedOrigin(allowedOrigins, siteUrl) == siteUrl.value
    ensures allowedOrigins.None? && (siteUrl.None? || siteUrl.value == "") ==> AllowedOrigin(allowedOrigins, siteUrl) == "http://localhost:3000"
  {
  }

  /** The two header sets are disjoint, so the decorators commute. */
  lemma DecoratorsCommute(headers: map<Header, string>, origin: string)
    ensures SecurityHeaders.Keys !! CorsHeaders(origin).Keys
    ensures headers + SecurityHeaders + CorsHeaders(origin) == headers + CorsHeaders(origin) + SecurityHeaders
  {
    MergeCommutes(headers, SecurityHeaders, CorsHeaders(origin));
  }

  /** Merging two maps with disjoint keys gives the same map in either order. */
  lemma MergeCommutes(m: map<Header, string>, a: map<Header, string>, b: map<Header, string>)
    requires a.Keys !! b.Keys
    ensures m + a + b == m + b + a
  {
    var x, y := m + a + b, m + b + a;
    assert x.Keys == y.Keys;
    forall k | k in x ensures x[k] == y[k] {
      if k in a {
        assert k !in b;
      }
    }
  }

  /** Each decorator is idempotent. */
  lemma DecoratorsIdempotent(headers: map<Header, string>, origin: string)
    ensures headers + SecurityHeaders + SecurityHeaders == headers + SecurityHeaders
    ensures headers + CorsHeaders(origin) + CorsHeaders(origin) == headers + CorsHeaders(origin)
  {
  }

  /** A decorated response carries all ten headers and keeps every other header it had. */
  lemma DecoratedHeaders(headers: map<Header, string>, siteUrl: Option<string>)
    ensures forall k :: k in SecurityHeaders ==> k in Decorated(headers, siteUrl) && Decorated(headers, siteUrl)[k] == SecurityHeaders[k]
    ensures forall k :: k in CorsHeaders(AllowedOrigin(None, siteUrl)) ==>
      k in Decorated(headers, siteUrl) && Decorated(headers, siteUrl)[k] == CorsHeaders(AllowedOrigin(None, siteUrl))[k]
    ensures forall k :: k in headers && k !in SecurityHeaders && k !in CorsHeaders("") ==>
      k in Decorated(headers, siteUrl) && Decorated(headers, siteUrl)[k] == headers[k]
    ensures Decorated(headers, siteUrl).Keys == headers.Keys + SecurityHeaders.Keys + CorsHeaders("").Keys
  {
    var cors := CorsHeaders(AllowedOrigin(None, siteUrl));
    assert cors.Keys == CorsHeaders("").Keys;
    assert SecurityHeaders.Keys !! cors.Keys;
  }
}

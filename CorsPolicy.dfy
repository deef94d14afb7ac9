/**
 * The CORS policy as a value: the options New is given, the policy it
 * compiles them to, when an origin, a method or a list of request
 * headers is admissible under a policy, and the ordered header writes of
 * the preflight and actual-request negotiation chains.
 */
module CorsPolicy {
  import opened Wrappers
  import opened Text
  import opened Http
  import opened Utils

  const MethodOptions := "OPTIONS"

  const HeaderVary := "Vary"
  const HeaderOrigin := "Origin"
  const HeaderRequestMethod := "Access-Control-Request-Method"
  const HeaderRequestHeaders := "Access-Control-Request-Headers"
  const HeaderAllowOrigin := "Access-Control-Allow-Origin"
  const HeaderAllowMethods := "Access-Control-Allow-Methods"
  const HeaderAllowHeaders := "Access-Control-Allow-Headers"
  const HeaderAllowCredentials := "Access-Control-Allow-Credentials"
  const HeaderMaxAge := "Access-Control-Max-Age"
  const HeaderExposeHeaders := "Access-Control-Expose-Headers"

  /** The header names the preflight chain writes. */
  const PreflightHeaderNames: set<string> := {
    HeaderVary, HeaderAllowOrigin, HeaderAllowMethods, HeaderAllowHeaders,
    HeaderAllowCredentials, HeaderMaxAge
  }

  /** The header names the actual-request chain writes. */
  const ActualHeaderNames: set<string> := {
    HeaderVary, HeaderAllowOrigin, HeaderExposeHeaders, HeaderAllowCredentials
  }

  const DefaultAllowedHeaders: seq<string> := ["Origin", "Accept", "Content-Type", "X-Requested-With"]
  const DefaultAllowedMethods: seq<string> := ["GET", "POST", "HEAD"]

  /** The configuration New is given (Options). */
  datatype Options = Options(
    allowedOrigins: seq<string>,
    allowOriginFunc: Option<string -> bool>,
    allowedMethods: seq<string>,
    allowedHeaders: seq<string>,
    exposedHeaders: seq<string>,
    maxAge: int,
    allowCredentials: bool,
    optionsPassthrough: bool,
    debug: bool)

  /** The zero Options value that Default passes to New. */
  const DefaultOptions := Options([], None, [], [], [], 0, false, false, false)

  /** The Options that AllowAll passes to New. */
  const AllowAllOptions := Options(
    ["*"], None, ["HEAD", "GET", "POST", "PUT", "PATCH", "DELETE"], ["*"], [], 0, true, false, false)

  /** The compiled policy: the fields of the Cors struct other than its logger. */
  datatype Policy = Policy(
    allowedOrigins: seq<string>,
    allowedWOrigins: seq<Wildcard>,
    allowOriginFunc: Option<string -> bool>,
    allowedHeaders: seq<string>,
    allowedMethods: seq<string>,
    exposedHeaders: seq<string>,
    maxAge: int,
    allowedOriginsAll: bool,
    allowedHeadersAll: bool,
    allowCredentials: bool,
    optionPassthrough: bool)

  /** What the origin loop of New leaves behind: the allow-all flag and the two origin lists. */
  datatype OriginTable = OriginTable(all: bool, exact: seq<string>, wild: seq<Wildcard>)

  /**
   * The origin loop of New over the entries still to scan, given the exact
   * and wildcard origins collected so far: a lower-cased "*" stops the scan
   * with allow-all and both lists cleared; an entry holding '*' adds a
   * wildcard split at its first '*'; any other entry is an exact origin.
   */
  function ScanOrigins(rest: seq<string>, exact: seq<string>, wild: seq<Wildcard>): OriginTable
    decreases |rest|
  {
    if rest == [] then OriginTable(false, exact, wild)
    else
      var origin := ToLower(rest[0]);
      if origin == "*" then OriginTable(true, [], [])
      else if '*' in origin then ScanOrigins(rest[1..], exact, wild + [SplitWildcard(origin)])
      else ScanOrigins(rest[1..], exact + [origin], wild)
  }

  /** The origin part of New: no origins means allow-all unless an origin function is given. */
  function CompileOrigins(options: Options): OriginTable {
    if |options.allowedOrigins| == 0 then OriginTable(options.allowOriginFunc.None?, [], [])
    else ScanOrigins(options.allowedOrigins, [], [])
  }

  /** The allowed-headers part of New: the allow-all flag and the list. */
  function CompileHeaders(headers: seq<string>): (bool, seq<string>) {
    if |headers| == 0 then (false, DefaultAllowedHeaders)
    else if "*" in headers then (true, [])
    else (false, Convert(headers + [HeaderOrigin], CanonicalHeaderKey))
  }

  /** The allowed-methods part of New. */
  function CompileMethods(methods: seq<string>): seq<string> {
    if |methods| == 0 then DefaultAllowedMethods else Convert(methods, ToUpper)
  }

  /** New: the policy compiled from the options. */
  function Compile(options: Options): Policy {
    var origins := CompileOrigins(options);
    var headers := CompileHeaders(options.allowedHeaders);
    Policy(
      origins.exact, origins.wild, options.allowOriginFunc,
      headers.1, CompileMethods(options.allowedMethods),
      Convert(options.exposedHeaders, CanonicalHeaderKey),
      options.maxAge, origins.all, headers.0,
      options.allowCredentials, options.optionsPassthrough)
  }

  /**
   * isOriginAllowed: an origin function decides alone; otherwise allow-all
   * admits; otherwise the lower-cased origin must be an exact origin or
   * match a wildcard.
   */
  predicate OriginAllowed(p: Policy, origin: string) {
    match p.allowOriginFunc
    case Some(f) => f(origin)
    case None =>
      || p.allowedOriginsAll
      || ToLower(origin) in p.allowedOrigins
      || exists w :: w in p.allowedWOrigins && w.Match(ToLower(origin))
  }

  /**
   * isMethodAllowed: nothing is allowed by an empty list; otherwise the
   * upper-cased method must be OPTIONS or in the list.
   */
  predicate MethodAllowed(p: Policy, verb: string) {
    && |p.allowedMethods| > 0
    && (ToUpper(verb) == MethodOptions || ToUpper(verb) in p.allowedMethods)
  }

  /**
   * areHeadersAllowed: allow-all admits every list; otherwise every
   * requested header, canonicalised, must be allowed (an empty list is).
   */
  predicate HeadersAllowed(p: Policy, requested: seq<string>) {
    || p.allowedHeadersAll
    || forall h :: h in requested ==> CanonicalHeaderKey(h) in p.allowedHeaders
  }

  /** The Access-Control-Allow-Origin value: "*" for allow-all without credentials, else the origin as sent. */
  function AllowOriginValue(p: Policy, origin: string): string {
    if p.allowedOriginsAll && !p.allowCredentials then "*" else origin
  }

  /** The adapters' routing rule: OPTIONS with a non-empty Access-Control-Request-Method. */
  predicate IsPreflight(req: Request): (b: bool)
    ensures b <==> && req.httpMethod == MethodOptions
                   && HeaderRequestMethod in req.header && req.header[HeaderRequestMethod] != []
                   && req.header[HeaderRequestMethod][0] != ""
  {
    req.httpMethod == MethodOptions && req.Get(HeaderRequestMethod) != ""
  }

  /** The request headers of a preflight, parsed. */
  function RequestedHeaders(req: Request): seq<string> {
    ParseHeaderList(req.Get(HeaderRequestHeaders))
  }

  /** Every check of the preflight chain after the Vary entries passes. */
  predicate PreflightAdmits(p: Policy, req: Request) {
    && req.Get(HeaderOrigin) != ""
    && OriginAllowed(p, req.Get(HeaderOrigin))
    && MethodAllowed(p, req.Get(HeaderRequestMethod))
    && HeadersAllowed(p, RequestedHeaders(req))
  }

  const PreflightVary: seq<Write> := [
    Append(HeaderVary, HeaderOrigin),
    Append(HeaderVary, HeaderRequestMethod),
    Append(HeaderVary, HeaderRequestHeaders)
  ]

  /** The optional grant writes of a preflight: the echoed headers, credentials and the max age. */
  function PreflightOptional(p: Policy, requested: seq<string>): seq<Write> {
    When(|requested| > 0, Replace(HeaderAllowHeaders, Join(requested, ", ")))
    + When(p.allowCredentials, Replace(HeaderAllowCredentials, "true"))
    + (if p.maxAge > 0 then [Replace(HeaderMaxAge, Itoa(p.maxAge))] else [])
  }

  /**
   * The writes of a successful preflight for the origin, the requested
   * method and the parsed requested headers, in the order handlePreflight
   * performs them.
   */
  function PreflightGrant(p: Policy, origin: string, reqMethod: string, requested: seq<string>): seq<Write> {
    [ Replace(HeaderAllowOrigin, AllowOriginValue(p, origin)),
      Replace(HeaderAllowMethods, ToUpper(reqMethod)) ]
    + PreflightOptional(p, requested)
  }

  /** handlePreflight as the ordered list of its header writes. */
  function PreflightWrites(p: Policy, req: Request): seq<Write> {
    if req.httpMethod != MethodOptions then []
    else if !PreflightAdmits(p, req) then PreflightVary
    else PreflightVary + PreflightGrant(p, req.Get(HeaderOrigin), req.Get(HeaderRequestMethod), RequestedHeaders(req))
  }

  /** Every check of the actual-request chain after the Vary entry passes. */
  predicate ActualAdmits(p: Policy, req: Request) {
    && req.Get(HeaderOrigin) != ""
    && OriginAllowed(p, req.Get(HeaderOrigin))
    && MethodAllowed(p, req.httpMethod)
  }

  /** The writes of a successful actual request from the origin, in the order handleActualRequest performs them. */
  function ActualGrant(p: Policy, origin: string): seq<Write> {
    [Replace(HeaderAllowOrigin, AllowOriginValue(p, origin))]
    + When(|p.exposedHeaders| > 0, Replace(HeaderExposeHeaders, Join(p.exposedHeaders, ", ")))
    + When(p.allowCredentials, Replace(HeaderAllowCredentials, "true"))
  }

  /** handleActualRequest as the ordered list of its header writes. */
  function ActualWrites(p: Policy, req: Request): seq<Write> {
    if req.httpMethod == MethodOptions then []
    else if !ActualAdmits(p, req) then [Append(HeaderVary, HeaderOrigin)]
    else [Append(HeaderVary, HeaderOrigin)] + ActualGrant(p, req.Get(HeaderOrigin))
  }

  /** The writes any of the three adapters performs for a request. */
  function DispatchWrites(p: Policy, req: Request): seq<Write> {
    if IsPreflight(req) then PreflightWrites(p, req) else ActualWrites(p, req)
  }

  /** Whether the adapters that have a downstream handler call it. */
  predicate CallsDownstream(p: Policy, req: Request) {
    !IsPreflight(req) || p.optionPassthrough
  }
}

/**
 * The Cors handler: New fills its fields from the options, the three
 * admissibility checks scan its lists, the two negotiation chains write
 * into a response's header map, and the three adapters route a request to
 * one of the chains and decide whether the downstream handler runs.
 */
module Cors {
  import opened Wrappers
  import opened Text
  import opened Http
  import opened Utils
  import opened CorsPolicy

  class Cors {
    const allowedOrigins: seq<string>
    const allowedWOrigins: seq<Wildcard>
    const allowOriginFunc: Option<string -> bool>
    const allowedHeaders: seq<string>
    const allowedMethods: seq<string>
    const exposedHeaders: seq<string>
    const maxAge: int
    const allowedOriginsAll: bool
    const allowedHeadersAll: bool
    const allowCredentials: bool
    const optionPassthrough: bool

    /** The fields as a policy value. */
    function ToPolicy(): Policy {
      Policy(
        allowedOrigins, allowedWOrigins, allowOriginFunc, allowedHeaders, allowedMethods,
        exposedHeaders, maxAge, allowedOriginsAll, allowedHeadersAll, allowCredentials,
        optionPassthrough)
    }

    /** New: compile the options into the handler's fields. */
    constructor New(options: Options)
      ensures ToPolicy() == Compile(options)
    {
      var originsAll, origins, wildcards := CompileOriginList(options);
      var headersAll, headers := CompileHeaderList(options.allowedHeaders);

      var methods: seq<string>;
      if |options.allowedMethods| == 0 {
        methods := DefaultAllowedMethods;
      } else {
        methods := Convert(options.allowedMethods, ToUpper);
      }

      exposedHeaders := Convert(options.exposedHeaders, CanonicalHeaderKey);
      allowOriginFunc := options.allowOriginFunc;
      allowCredentials := options.allowCredentials;
      maxAge := options.maxAge;
      optionPassthrough := options.optionsPassthrough;
      allowedOrigins := origins;
      allowedWOrigins := wildcards;
      allowedOriginsAll := originsAll;
      allowedHeaders := headers;
      allowedHeadersAll := headersAll;
      allowedMethods := methods;
    }

    /** The origin loop of New: allow-all (given when the list is empty), the exact origins and the wildcards. */
    static method CompileOriginList(options: Options)
      returns (all: bool, exact: seq<string>, wild: seq<Wildcard>)
      ensures OriginTable(all, exact, wild) == CompileOrigins(options)
    {
      var allowed := options.allowedOrigins;
      exact, wild, all := [], [], false;
      if |allowed| == 0 {
        all := options.allowOriginFunc.None?;
        return;
      }
      var k := 0;
      while k < |allowed|
        invariant 0 <= k <= |allowed|
        invariant ScanOrigins(allowed[k..], exact, wild) == ScanOrigins(allowed, [], [])
      {
        var origin := ToLower(allowed[k]);
        if origin == "*" {
          all, exact, wild := true, [], [];
          return;
        }
        var i := IndexByte(origin, '*');
        if i >= 0 {
          wild := wild + [Wildcard(origin[..i], origin[i + 1..])];
        } else {
          exact := exact + [origin];
        }
        assert allowed[k..][1..] == allowed[k + 1..];
        k := k + 1;
      }
    }

    /** The allowed-headers loop of New: a "*" entry means allow-all with an empty list. */
    static method CompileHeaderList(allowed: seq<string>) returns (all: bool, headers: seq<string>)
      ensures (all, headers) == CompileHeaders(allowed)
    {
      all := false;
      if |allowed| == 0 {
        return false, DefaultAllowedHeaders;
      }
      headers := Convert(allowed + [HeaderOrigin], CanonicalHeaderKey);
      for k := 0 to |allowed|
        invariant forall j :: 0 <= j < k ==> allowed[j] != "*"
      {
        if allowed[k] == "*" {
          return true, [];
        }
      }
    }

    /** isOriginAllowed. */
    method IsOriginAllowed(origin: string) returns (allowed: bool)
      ensures allowed == OriginAllowed(ToPolicy(), origin)
    {
      if allowOriginFunc.Some? {
        return allowOriginFunc.value(origin);
      }
      if allowedOriginsAll {
        return true;
      }
      var lowered := ToLower(origin);
      for i := 0 to |allowedOrigins|
        invariant lowered !in allowedOrigins[..i]
      {
        if allowedOrigins[i] == lowered {
          return true;
        }
      }
      assert allowedOrigins[..|allowedOrigins|] == allowedOrigins;
      for i := 0 to |allowedWOrigins|
        invariant forall j :: 0 <= j < i ==> !allowedWOrigins[j].Match(lowered)
      {
        if allowedWOrigins[i].Match(lowered) {
          return true;
        }
      }
      return false;
    }

    /** isMethodAllowed. */
    method IsMethodAllowed(verb: string) returns (allowed: bool)
      ensures allowed == MethodAllowed(ToPolicy(), verb)
    {
      if |allowedMethods| == 0 {
        return false;
      }
      var upper := ToUpper(verb);
      if upper == MethodOptions {
        return true;
      }
      for i := 0 to |allowedMethods|
        invariant upper !in allowedMethods[..i]
      {
        if allowedMethods[i] == upper {
          return true;
        }
      }
      assert allowedMethods[..|allowedMethods|] == allowedMethods;
      return false;
    }

    /** areHeadersAllowed: every requested header must be found; the inner scan does not stop early. */
    method AreHeadersAllowed(requested: seq<string>) returns (allowed: bool)
      ensures allowed == HeadersAllowed(ToPolicy(), requested)
    {
      if allowedHeadersAll || |requested| == 0 {
        return true;
      }
      for k := 0 to |requested|
        invariant forall j :: 0 <= j < k ==> CanonicalHeaderKey(requested[j]) in allowedHeaders
      {
        var header := CanonicalHeaderKey(requested[k]);
        var found := false;
        for i := 0 to |allowedHeaders|
          invariant found <==> header in allowedHeaders[..i]
        {
          if allowedHeaders[i] == header {
            found := true;
          }
          assert allowedHeaders[..i + 1] == allowedHeaders[..i] + [allowedHeaders[i]];
        }
        assert allowedHeaders[..|allowedHeaders|] == allowedHeaders;
        if !found {
          return false;
        }
      }
      return true;
    }

    /** handlePreflight: the Vary entries, then the checks, then the grant headers. */
    method HandlePreflight(w: Response, req: Request)
      modifies w.header
      ensures w.header.entries == Apply(old(w.header.entries), PreflightWrites(ToPolicy(), req))
    {
      ghost var start := w.header.entries;
      var headers := w.header;
      var origin := req.Get(HeaderOrigin);

      if req.httpMethod != MethodOptions {
        return;
      }

      headers.Add(HeaderVary, HeaderOrigin);
      headers.Add(HeaderVary, HeaderRequestMethod);
      headers.Add(HeaderVary, HeaderRequestHeaders);
      ghost var done := PreflightVary;
      assert headers.entries == Apply(start, done) by {
        ApplyThree(start, done);
      }

      if origin == "" {
        return;
      }
      var ok := IsOriginAllowed(origin);
      if !ok {
        return;
      }
      var reqMethod := req.Get(HeaderRequestMethod);
      ok := IsMethodAllowed(reqMethod);
      if !ok {
        return;
      }
      var reqHeaders := ParseHeaderList(req.Get(HeaderRequestHeaders));
      ok := AreHeadersAllowed(reqHeaders);
      if !ok {
        return;
      }

      assert PreflightAdmits(ToPolicy(), req);
      WritePreflightGrant(headers, origin, reqMethod, reqHeaders);
      ApplyConcat(start, PreflightVary, PreflightGrant(ToPolicy(), origin, reqMethod, reqHeaders));
    }

    /** The grant headers of a preflight that passed every check. */
    method WritePreflightGrant(headers: Header, origin: string, reqMethod: string, reqHeaders: seq<string>)
      modifies headers
      ensures headers.entries == Apply(old(headers.entries), PreflightGrant(ToPolicy(), origin, reqMethod, reqHeaders))
    {
      ghost var start := headers.entries;
      ghost var allowOrigin := Replace(HeaderAllowOrigin, AllowOriginValue(ToPolicy(), origin));
      ghost var allowMethods := Replace(HeaderAllowMethods, ToUpper(reqMethod));
      ghost var allowHeaders := Replace(HeaderAllowHeaders, Join(reqHeaders, ", "));
      ghost var allowCredentials' := Replace(HeaderAllowCredentials, "true");
      if allowedOriginsAll && !allowCredentials {
        headers.Set(HeaderAllowOrigin, "*");
      } else {
        headers.Set(HeaderAllowOrigin, origin);
      }
      assert headers.entries == Apply(start, [allowOrigin]);
      headers.Set(HeaderAllowMethods, ToUpper(reqMethod));
      ghost var fixed := [allowOrigin, allowMethods];
      assert headers.entries == Apply(start, fixed) by {
        ApplySnoc(start, [allowOrigin], allowMethods);
        assert [allowOrigin] + [allowMethods] == fixed;
      }
      ghost var mid := headers.entries;
      if |reqHeaders| > 0 {
        headers.Set(HeaderAllowHeaders, Join(reqHeaders, ", "));
      }
      ghost var optional := When(|reqHeaders| > 0, allowHeaders);
      ApplySnocWhen(mid, [], |reqHeaders| > 0, allowHeaders);
      assert [] + optional == optional;
      if allowCredentials {
        headers.Set(HeaderAllowCredentials, "true");
      }
      ApplySnocWhen(mid, optional, allowCredentials, allowCredentials');
      optional := optional + When(allowCredentials, allowCredentials');
      ghost var maxAgePart: seq<Write> := if maxAge > 0 then [Replace(HeaderMaxAge, Itoa(maxAge))] else [];
      if maxAge > 0 {
        headers.Set(HeaderMaxAge, Itoa(maxAge));
        ApplySnoc(mid, optional, Replace(HeaderMaxAge, Itoa(maxAge)));
      } else {
        assert optional + maxAgePart == optional;
      }
      optional := optional + maxAgePart;
      assert optional == PreflightOptional(ToPolicy(), reqHeaders);
      ApplyConcat(start, fixed, optional);
    }

    /** handleActualRequest: nothing for OPTIONS; else the Vary entry, the checks, the grant headers. */
    method HandleActualRequest(w: Response, req: Request)
      modifies w.header
      ensures w.header.entries == Apply(old(w.header.entries), ActualWrites(ToPolicy(), req))
    {
      ghost var start := w.header.entries;
      var headers := w.header;
      var origin := req.Get(HeaderOrigin);

      if req.httpMethod == MethodOptions {
        return;
      }

      headers.Add(HeaderVary, HeaderOrigin);
      ghost var done := [Append(HeaderVary, HeaderOrigin)];
      ApplySnoc(start, [], done[0]);
      if origin == "" {
        return;
      }
      var ok := IsOriginAllowed(origin);
      if !ok {
        return;
      }
      ok := IsMethodAllowed(req.httpMethod);
      if !ok {
        return;
      }

      assert ActualAdmits(ToPolicy(), req);
      WriteActualGrant(headers, origin);
      ApplyConcat(start, done, ActualGrant(ToPolicy(), origin));
    }

    /** The grant headers of an actual request that passed every check. */
    method WriteActualGrant(headers: Header, origin: string)
      modifies headers
      ensures headers.entries == Apply(old(headers.entries), ActualGrant(ToPolicy(), origin))
    {
      ghost var start := headers.entries;
      ghost var allowOrigin := Replace(HeaderAllowOrigin, AllowOriginValue(ToPolicy(), origin));
      ghost var expose := Replace(HeaderExposeHeaders, Join(exposedHeaders, ", "));
      ghost var allowCredentials' := Replace(HeaderAllowCredentials, "true");
      if allowedOriginsAll && !allowCredentials {
        headers.Set(HeaderAllowOrigin, "*");
      } else {
        headers.Set(HeaderAllowOrigin, origin);
      }
      ApplySnoc(start, [], allowOrigin);
      ghost var done := [allowOrigin];
      if |exposedHeaders| > 0 {
        headers.Set(HeaderExposeHeaders, Join(exposedHeaders, ", "));
      }
      ApplySnocWhen(start, done, |exposedHeaders| > 0, expose);
      done := done + When(|exposedHeaders| > 0, expose);
      if allowCredentials {
        headers.Set(HeaderAllowCredentials, "true");
      }
      ApplySnocWhen(start, done, allowCredentials, allowCredentials');
    }

    /**
     * The handler Handler(h) returns, serving one request: a preflight is
     * answered with status 200 unless passthrough is on, in which case h
     * runs; h always runs after an actual request. The result says whether h ran.
     */
    method Handler(w: Response, req: Request) returns (downstream: bool)
      modifies w, w.header
      ensures w.header.entries == Apply(old(w.header.entries), DispatchWrites(ToPolicy(), req))
      ensures downstream == CallsDownstream(ToPolicy(), req)
      ensures w.status == if IsPreflight(req) && !optionPassthrough then Some(200) else old(w.status)
    {
      if req.httpMethod == MethodOptions && req.Get(HeaderRequestMethod) != "" {
        HandlePreflight(w, req);
        if optionPassthrough {
          downstream := true;
        } else {
          w.WriteHeader(200);
          downstream := false;
        }
      } else {
        HandleActualRequest(w, req);
        downstream := true;
      }
    }

    /** HandlerFunc: the same routing, with no downstream handler and no status. */
    method HandlerFunc(w: Response, req: Request)
      modifies w.header
      ensures w.header.entries == Apply(old(w.header.entries), DispatchWrites(ToPolicy(), req))
    {
      if req.httpMethod == MethodOptions && req.Get(HeaderRequestMethod) != "" {
        HandlePreflight(w, req);
      } else {
        HandleActualRequest(w, req);
      }
    }

    /** ServeHTTP: the routing of Handler, with next as the downstream handler. The result says whether next ran. */
    method ServeHTTP(w: Response, req: Request) returns (calledNext: bool)
      modifies w, w.header
      ensures w.header.entries == Apply(old(w.header.entries), DispatchWrites(ToPolicy(), req))
      ensures calledNext == CallsDownstream(ToPolicy(), req)
      ensures w.status == if IsPreflight(req) && !optionPassthrough then Some(200) else old(w.status)
    {
      if req.httpMethod == MethodOptions && req.Get(HeaderRequestMethod) != "" {
        HandlePreflight(w, req);
        if optionPassthrough {
          calledNext := true;
        } else {
          w.WriteHeader(200);
          calledNext := false;
        }
      } else {
        HandleActualRequest(w, req);
        calledNext := true;
      }
    }
  }

  /** Default: a handler compiled from the zero options. */
  method Default() returns (c: Cors)
    ensures fresh(c) && c.ToPolicy() == Compile(DefaultOptions)
  {
    c := new Cors.New(DefaultOptions);
  }

  /** AllowAll: a handler compiled from AllowAllOptions; CorsProperties.AllowAllAdmits shows it admits every origin and header list. */
  method AllowAll() returns (c: Cors)
    ensures fresh(c) && c.ToPolicy() == Compile(AllowAllOptions)
  {
    c := new Cors.New(AllowAllOptions);
  }

  /**
   * The three adapters, each serving the same request on a fresh response,
   * leave identical header maps: the writes of the chain the routing rule picks.
   */
  method AdaptersAgree(c: Cors, req: Request)
    returns (viaHandler: HeaderMap, viaHandlerFunc: HeaderMap, viaServeHTTP: HeaderMap)
    ensures viaHandler == viaHandlerFunc == viaServeHTTP
    ensures viaHandler == Apply(map[], DispatchWrites(c.ToPolicy(), req))
  {
    var w1 := new Response();
    var _ := c.Handler(w1, req);
    var w2 := new Response();
    c.HandlerFunc(w2, req);
    var w3 := new Response();
    var _ := c.ServeHTTP(w3, req);
    viaHandler, viaHandlerFunc, viaServeHTTP := w1.header.entries, w2.header.entries, w3.header.entries;
  }
}

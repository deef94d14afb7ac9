/**
 * The test table of the repository, stated against the model: for each
 * case, the options, the request and the joined value of every inspected
 * response header. The table lemmas are derived from general lemmas giving
 * the complete inspected outcome of each chain on a fresh response.
 */
module CorsExamples {
  import opened Wrappers
  import opened Text
  import opened Http
  import opened Utils
  import opened CorsPolicy
  import opened CorsProperties

  // ---------------------------------------------------------------------
  // What the table inspects

  /**
   * The joined value of each response header the table inspects, in its
   * own order; a header expected to be absent shows "".
   */
  datatype Inspected = Inspected(
    vary: string, allowOrigin: string, allowMethods: string, allowHeaders: string,
    allowCredentials: string, maxAge: string, exposeHeaders: string)

  /** No inspected header shows anything. */
  const NoHeaders := Inspected("", "", "", "", "", "", "")

  /** The values under a name joined with ", ", empty when there are none. */
  function Shown(m: HeaderMap, name: string): string {
    Join(Values(m, name), ", ")
  }

  /** What the inspected headers of a header map show. */
  function Inspect(m: HeaderMap): Inspected {
    Inspected(
      Shown(m, HeaderVary), Shown(m, HeaderAllowOrigin), Shown(m, HeaderAllowMethods),
      Shown(m, HeaderAllowHeaders), Shown(m, HeaderAllowCredentials), Shown(m, HeaderMaxAge),
      Shown(m, HeaderExposeHeaders))
  }

  /** The header map a fresh response ends with under a policy (any of the three adapters). */
  function Outcome(options: Options, verb: string, header: HeaderMap): HeaderMap {
    Apply(map[], DispatchWrites(Compile(options), Request(verb, header)))
  }

  /** "Origin, Access-Control-Request-Method, Access-Control-Request-Headers". */
  const PreflightVaryText := HeaderOrigin + ", " + HeaderRequestMethod + ", " + HeaderRequestHeaders

  lemma PreflightVaryJoined()
    ensures Join([HeaderOrigin, HeaderRequestMethod, HeaderRequestHeaders], ", ") == PreflightVaryText
  {
    var vs := [HeaderOrigin, HeaderRequestMethod, HeaderRequestHeaders];
    assert vs[1..] == [HeaderRequestMethod, HeaderRequestHeaders];
    assert [HeaderRequestMethod, HeaderRequestHeaders][1..] == [HeaderRequestHeaders];
    assert Join([HeaderRequestMethod, HeaderRequestHeaders], ", ") == HeaderRequestMethod + ", " + HeaderRequestHeaders;
    assert Join(vs, ", ") == HeaderOrigin + ", " + (HeaderRequestMethod + ", " + HeaderRequestHeaders);
  }

  /** Any OPTIONS request shows the three Vary values on a fresh response. */
  lemma PreflightVaryShown(p: Policy, req: Request)
    requires req.httpMethod == MethodOptions
    ensures Shown(Apply(map[], PreflightWrites(p, req)), HeaderVary) == PreflightVaryText
  {
    PreflightVaryValues(p, req, map[]);
    assert Values(Apply(map[], PreflightWrites(p, req)), HeaderVary)
        == [HeaderOrigin, HeaderRequestMethod, HeaderRequestHeaders];
    PreflightVaryJoined();
  }

  /** The preflight chain never writes Access-Control-Expose-Headers. */
  lemma PreflightShowsNoExpose(p: Policy, req: Request)
    ensures Shown(Apply(map[], PreflightWrites(p, req)), HeaderExposeHeaders) == ""
  {
    assert HeaderExposeHeaders !in PreflightHeaderNames;
    PreflightOtherNames(p, req, map[], HeaderExposeHeaders);
  }

  /** The actual-request chain never writes the preflight-only headers. */
  lemma ActualShowsNone(p: Policy, req: Request, name: string)
    requires name == HeaderAllowMethods || name == HeaderAllowHeaders || name == HeaderMaxAge
    ensures Shown(Apply(map[], ActualWrites(p, req)), name) == ""
  {
    assert name !in ActualHeaderNames;
    ActualOtherNames(p, req, map[], name);
  }

  // ---------------------------------------------------------------------
  // The complete inspected outcome of each chain on a fresh response

  /** The text a name shows when it holds at most one value. */
  function Optional(c: bool, value: string): string {
    if c then value else ""
  }

  /** What a granted preflight shows. */
  function PreflightShown(p: Policy, req: Request): Inspected {
    var requested := RequestedHeaders(req);
    Inspected(
      PreflightVaryText,
      AllowOriginValue(p, req.Get(HeaderOrigin)),
      ToUpper(req.Get(HeaderRequestMethod)),
      Optional(|requested| > 0, Join(requested, ", ")),
      Optional(p.allowCredentials, "true"),
      if p.maxAge > 0 then Itoa(p.maxAge) else "",
      "")
  }

  /** A granted preflight on a fresh response shows exactly its grant and the three Vary values. */
  lemma PreflightShows(p: Policy, req: Request)
    requires req.httpMethod == MethodOptions && PreflightAdmits(p, req)
    ensures Inspect(Apply(map[], PreflightWrites(p, req))) == PreflightShown(p, req)
  {
    var m: HeaderMap := map[];
    var r := Apply(m, PreflightWrites(p, req));
    var want := PreflightShown(p, req);
    assert Shown(r, HeaderVary) == want.vary by {
      PreflightVaryShown(p, req);
    }
    assert Shown(r, HeaderAllowOrigin) == want.allowOrigin by {
      PreflightAllowOrigin(p, req, m);
    }
    assert Shown(r, HeaderAllowMethods) == want.allowMethods by {
      PreflightAllowMethods(p, req, m);
    }
    assert Shown(r, HeaderAllowHeaders) == want.allowHeaders by {
      PreflightAllowHeaders(p, req, m);
    }
    assert Shown(r, HeaderAllowCredentials) == want.allowCredentials by {
      PreflightCredentials(p, req, m);
    }
    assert Shown(r, HeaderMaxAge) == want.maxAge by {
      PreflightMaxAge(p, req, m);
    }
    assert Shown(r, HeaderExposeHeaders) == want.exposeHeaders by {
      PreflightShowsNoExpose(p, req);
    }
  }

  /** A preflight that fails a check shows only the three Vary values. */
  lemma PreflightRejectedShows(p: Policy, req: Request)
    requires req.httpMethod == MethodOptions && !PreflightAdmits(p, req)
    ensures Inspect(Apply(map[], PreflightWrites(p, req))) == Inspected(PreflightVaryText, "", "", "", "", "", "")
  {
    var m: HeaderMap := map[];
    PreflightVaryShown(p, req);
    PreflightRejected(p, req, m, HeaderAllowOrigin);
    PreflightRejected(p, req, m, HeaderAllowMethods);
    PreflightRejected(p, req, m, HeaderAllowHeaders);
    PreflightRejected(p, req, m, HeaderAllowCredentials);
    PreflightRejected(p, req, m, HeaderMaxAge);
    PreflightRejected(p, req, m, HeaderExposeHeaders);
  }

  /** What a granted actual request shows. */
  function ActualShown(p: Policy, req: Request): Inspected {
    Inspected(
      HeaderOrigin, AllowOriginValue(p, req.Get(HeaderOrigin)), "", "",
      Optional(p.allowCredentials, "true"), "",
      Optional(|p.exposedHeaders| > 0, Join(p.exposedHeaders, ", ")))
  }

  /** A granted actual request on a fresh response shows exactly its grant and the Vary value. */
  lemma ActualShows(p: Policy, req: Request)
    requires req.httpMethod != MethodOptions && ActualAdmits(p, req)
    ensures Inspect(Apply(map[], ActualWrites(p, req))) == ActualShown(p, req)
  {
    var m: HeaderMap := map[];
    var r := Apply(m, ActualWrites(p, req));
    var want := ActualShown(p, req);
    assert Shown(r, HeaderVary) == want.vary by {
      ActualVary(p, req, m);
    }
    assert Shown(r, HeaderAllowOrigin) == want.allowOrigin by {
      ActualAllowOrigin(p, req, m);
    }
    assert Shown(r, HeaderAllowMethods) == want.allowMethods by {
      ActualShowsNone(p, req, HeaderAllowMethods);
    }
    assert Shown(r, HeaderAllowHeaders) == want.allowHeaders by {
      ActualShowsNone(p, req, HeaderAllowHeaders);
    }
    assert Shown(r, HeaderAllowCredentials) == want.allowCredentials by {
      ActualCredentials(p, req, m);
    }
    assert Shown(r, HeaderMaxAge) == want.maxAge by {
      ActualShowsNone(p, req, HeaderMaxAge);
    }
    assert Shown(r, HeaderExposeHeaders) == want.exposeHeaders by {
      ActualExposeHeaders(p, req, m);
    }
  }

  /** An actual request that fails a check shows only the Vary value. */
  lemma ActualRejectedShows(p: Policy, req: Request)
    requires req.httpMethod != MethodOptions && !ActualAdmits(p, req)
    ensures Inspect(Apply(map[], ActualWrites(p, req))) == Inspected(HeaderOrigin, "", "", "", "", "", "")
  {
    var m: HeaderMap := map[];
    ActualVary(p, req, m);
    ActualRejected(p, req, m, HeaderAllowOrigin);
    ActualRejected(p, req, m, HeaderAllowMethods);
    ActualRejected(p, req, m, HeaderAllowHeaders);
    ActualRejected(p, req, m, HeaderAllowCredentials);
    ActualRejected(p, req, m, HeaderMaxAge);
    ActualRejected(p, req, m, HeaderExposeHeaders);
  }

  /** The outcome of a request the routing sends to the actual-request chain and that passes its checks. */
  lemma ActualOutcome(options: Options, verb: string, header: HeaderMap)
    requires verb != MethodOptions && ActualAdmits(Compile(options), Request(verb, header))
    ensures Inspect(Outcome(options, verb, header)) == ActualShown(Compile(options), Request(verb, header))
  {
    ActualShows(Compile(options), Request(verb, header));
  }

  /** The outcome of a request the routing sends to the actual-request chain and that fails a check. */
  lemma ActualRejectedOutcome(options: Options, verb: string, header: HeaderMap)
    requires verb != MethodOptions && !ActualAdmits(Compile(options), Request(verb, header))
    ensures Inspect(Outcome(options, verb, header)) == NoHeaders.(vary := HeaderOrigin)
  {
    ActualRejectedShows(Compile(options), Request(verb, header));
  }

  /** The outcome of a preflight that passes every check. */
  lemma PreflightOutcome(options: Options, header: HeaderMap)
    requires IsPreflight(Request(MethodOptions, header)) && PreflightAdmits(Compile(options), Request(MethodOptions, header))
    ensures Inspect(Outcome(options, MethodOptions, header)) == PreflightShown(Compile(options), Request(MethodOptions, header))
  {
    PreflightShows(Compile(options), Request(MethodOptions, header));
  }

  /** The outcome of a preflight that fails a check. */
  lemma PreflightRejectedOutcome(options: Options, header: HeaderMap)
    requires IsPreflight(Request(MethodOptions, header)) && !PreflightAdmits(Compile(options), Request(MethodOptions, header))
    ensures Inspect(Outcome(options, MethodOptions, header)) == NoHeaders.(vary := PreflightVaryText)
  {
    PreflightRejectedShows(Compile(options), Request(MethodOptions, header));
  }

  // ---------------------------------------------------------------------
  // Literal facts the table needs

  /** One configured origin without '*' compiles to that origin, lower-cased, as the only exact origin. */
  lemma ExactOrigin(x: string)
    requires '*' !in x
    ensures ScanOrigins([x], [], []) == OriginTable(false, [ToLower(x)], [])
  {
    ToLowerKeepsNonLetters(x, '*');
    assert '*' in "*";
    assert [x][1..] == [];
  }

  /** Options with one configured origin without '*' and no origin function admit exactly that origin, in any case. */
  lemma SingleOriginPolicy(o: Options, x: string)
    requires o.allowedOrigins == [x] && '*' !in x && o.allowOriginFunc.None?
    ensures Compile(o).allowedOrigins == [ToLower(x)] && Compile(o).allowedWOrigins == []
    ensures !Compile(o).allowedOriginsAll && Compile(o).allowOriginFunc.None?
    ensures forall y {:trigger ToLower(y)} :: OriginAllowed(Compile(o), y) <==> ToLower(y) == ToLower(x)
  {
    ExactOrigin(x);
  }

  /** Lower-casing a string without upper-case letters (stated as a requirement, so that literals are checked character by character). */
  lemma LowerAlready(s: string)
    requires forall i :: 0 <= i < |s| ==> !IsUpper(s[i])
    ensures ToLower(s) == s
  {
    ToLowerFixed(s);
  }

  /** The configured origin "*" compiles to allow-all. */
  lemma StarOrigin()
    ensures ScanOrigins(["*"], [], []) == OriginTable(true, [], [])
  {
    assert ToLower("*") == "*";
  }

  /** Two strings that differ, lower-cased, at one position lower-case differently. */
  lemma LowerDiffers(a: string, b: string, i: nat)
    requires i < |a| && i < |b| && LowerChar(a[i]) != LowerChar(b[i])
    ensures ToLower(a) != ToLower(b)
  {
    assert ToLower(a)[i] != ToLower(b)[i];
  }



  /** The regular expression ^http://foo of the origin-function cases: a prefix test. */
  predicate StartsWithHttpFoo(origin: string) {
    "http://foo" <= origin
  }

  const FooBar := "http://foobar.com"

  /** A GET from the origin: the request of most actual-request cases. */
  function GetFrom(origin: string): HeaderMap {
    map[HeaderOrigin := [origin]]
  }

  /** A preflight from the origin asking for a method, with no Access-Control-Request-Headers. */
  function PreflightFrom(origin: string, verb: string): HeaderMap {
    map[HeaderOrigin := [origin], HeaderRequestMethod := [verb]]
  }

  /** The header map of a preflight that also lists requested headers. */
  function PreflightWith(origin: string, verb: string, requested: string): HeaderMap {
    map[HeaderOrigin := [origin], HeaderRequestMethod := [verb], HeaderRequestHeaders := [requested]]
  }

  /** The header map of PreflightFrom reads back its origin and method and holds no requested headers. */
  lemma PreflightFromReads(origin: string, verb: string)
    ensures Request(MethodOptions, PreflightFrom(origin, verb)).Get(HeaderOrigin) == origin
    ensures Request(MethodOptions, PreflightFrom(origin, verb)).Get(HeaderRequestMethod) == verb
    ensures Request(MethodOptions, PreflightFrom(origin, verb)).Get(HeaderRequestHeaders) == ""
  {
    assert |HeaderOrigin| == 6 && |HeaderRequestMethod| == 29 && |HeaderRequestHeaders| == 30;
  }

  /** A preflight from the origin without Access-Control-Request-Headers parses no requested header. */
  lemma NoRequestedHeaders(origin: string, verb: string)
    ensures RequestedHeaders(Request(MethodOptions, PreflightFrom(origin, verb))) == []
  {
    PreflightFromReads(origin, verb);
    ParseBlank("");
  }

  // ---------------------------------------------------------------------
  // The table

  /** NoConfig: a GET without Origin gets only Vary: Origin. */
  lemma NoConfig()
    ensures Inspect(Outcome(DefaultOptions, "GET", map[])) == NoHeaders.(vary := HeaderOrigin)
  {
    ActualRejectedOutcome(DefaultOptions, "GET", map[]);
  }

  /** MatchAllOrigin: with the origin "*", any origin is answered with "*". */
  lemma MatchAllOrigin()
    ensures Inspect(Outcome(DefaultOptions.(allowedOrigins := ["*"]), "GET", GetFrom(FooBar)))
         == NoHeaders.(vary := HeaderOrigin, allowOrigin := "*")
  {
    StarOrigin();
    assert ToUpper("GET") == "GET";
    ActualOutcome(DefaultOptions.(allowedOrigins := ["*"]), "GET", GetFrom(FooBar));
  }

  /** MatchAllOriginWithCredentials: with credentials the origin is echoed instead of "*". */
  lemma MatchAllOriginWithCredentials()
    ensures Inspect(Outcome(DefaultOptions.(allowedOrigins := ["*"], allowCredentials := true), "GET", GetFrom(FooBar)))
         == NoHeaders.(vary := HeaderOrigin, allowOrigin := FooBar, allowCredentials := "true")
  {
    StarOrigin();
    assert ToUpper("GET") == "GET";
    ActualOutcome(DefaultOptions.(allowedOrigins := ["*"], allowCredentials := true), "GET", GetFrom(FooBar));
  }

  /** A GET from the one listed origin, which holds no '*', is granted and the origin echoed. */
  lemma ListedOriginEchoed(origin: string)
    requires origin != "" && '*' !in origin
    ensures Inspect(Outcome(DefaultOptions.(allowedOrigins := [origin]), "GET", GetFrom(origin)))
         == NoHeaders.(vary := HeaderOrigin, allowOrigin := origin)
  {
    ExactOrigin(origin);
    assert ToUpper("GET") == "GET";
    ActualOutcome(DefaultOptions.(allowedOrigins := [origin]), "GET", GetFrom(origin));
  }

  /** AllowedOrigin: a listed origin is echoed. */
  lemma AllowedOrigin()
    ensures Inspect(Outcome(DefaultOptions.(allowedOrigins := [FooBar]), "GET", GetFrom(FooBar)))
         == NoHeaders.(vary := HeaderOrigin, allowOrigin := FooBar)
  {
    ListedOriginEchoed(FooBar);
  }

  /** A GET from an origin that differs, lower-cased, at position i from the one listed origin gets only Vary: Origin. */
  lemma UnlistedOriginRejected(listed: string, origin: string, i: nat)
    requires '*' !in listed && i < |listed| && i < |origin| && LowerChar(origin[i]) != LowerChar(listed[i])
    ensures Inspect(Outcome(DefaultOptions.(allowedOrigins := [listed]), "GET", GetFrom(origin)))
         == NoHeaders.(vary := HeaderOrigin)
  {
    var o := DefaultOptions.(allowedOrigins := [listed]);
    SingleOriginPolicy(o, listed);
    LowerDiffers(origin, listed, i);
    assert Request("GET", GetFrom(origin)).Get(HeaderOrigin) == origin;
    ActualRejectedOutcome(o, "GET", GetFrom(origin));
  }

  /** DisallowedOrigin: an origin that is not listed gets only Vary: Origin. */
  lemma DisallowedOrigin()
    ensures Inspect(Outcome(DefaultOptions.(allowedOrigins := [FooBar]), "GET", GetFrom("http://barbaz.com")))
         == NoHeaders.(vary := HeaderOrigin)
  {
    UnlistedOriginRejected(FooBar, "http://barbaz.com", 7);
  }

  /** One configured origin holding '*', already lower-case, compiles to the wildcard split at that '*'. */
  lemma WildcardScan(pattern: string, w: Wildcard)
    requires pattern == w.prefix + "*" + w.suffix && '*' !in w.prefix && w.prefix + w.suffix != "" && ToLower(pattern) == pattern
    ensures ScanOrigins([pattern], [], []) == OriginTable(false, [], [w])
  {
    assert ToLower(pattern) != "*" by {
      assert |pattern| > 1;
    }
    assert '*' in ToLower(pattern) by {
      assert pattern[|w.prefix|] == '*';
    }
    var patterns: seq<string> := [pattern];
    assert ScanOrigins(patterns, [], []) == ScanOrigins([], [], [SplitWildcard(pattern)]) by {
      assert patterns[1..] == [];
    }
    SplitWildcardAt(w.prefix, w.suffix);
  }

  /** Options with one configured wildcard origin, already lower-case, admit exactly the origins that match it once lower-cased. */
  lemma WildcardPolicy(o: Options, pattern: string, w: Wildcard)
    requires o.allowedOrigins == [pattern] && o.allowOriginFunc.None?
    requires pattern == w.prefix + "*" + w.suffix && '*' !in w.prefix && w.prefix + w.suffix != "" && ToLower(pattern) == pattern
    ensures Compile(o).allowedOrigins == [] && Compile(o).allowedWOrigins == [w]
    ensures !Compile(o).allowedOriginsAll && Compile(o).allowOriginFunc.None?
    ensures forall y {:trigger ToLower(y)} :: OriginAllowed(Compile(o), y) <==> w.Match(ToLower(y))
  {
    WildcardScan(pattern, w);
    forall y {:trigger ToLower(y)}
      ensures OriginAllowed(Compile(o), y) <==> w.Match(ToLower(y))
    {
      if w.Match(ToLower(y)) {
        assert w in Compile(o).allowedWOrigins;
      }
    }
  }

  /** A GET from an origin matching the one configured wildcard origin is granted and the origin echoed. */
  lemma WildcardOriginEchoed(pattern: string, w: Wildcard, origin: string)
    requires pattern == w.prefix + "*" + w.suffix && '*' !in w.prefix && w.prefix + w.suffix != "" && ToLower(pattern) == pattern
    requires origin != "" && w.Match(ToLower(origin))
    ensures Inspect(Outcome(DefaultOptions.(allowedOrigins := [pattern]), "GET", GetFrom(origin)))
         == NoHeaders.(vary := HeaderOrigin, allowOrigin := origin)
  {
    var o := DefaultOptions.(allowedOrigins := [pattern]);
    WildcardPolicy(o, pattern, w);
    assert ToUpper("GET") == "GET";
    assert Request("GET", GetFrom(origin)).Get(HeaderOrigin) == origin;
    ActualOutcome(o, "GET", GetFrom(origin));
  }

  /** A GET from an origin not matching the one configured wildcard origin gets only Vary: Origin. */
  lemma WildcardOriginRejected(pattern: string, w: Wildcard, origin: string)
    requires pattern == w.prefix + "*" + w.suffix && '*' !in w.prefix && w.prefix + w.suffix != "" && ToLower(pattern) == pattern
    requires !w.Match(ToLower(origin))
    ensures Inspect(Outcome(DefaultOptions.(allowedOrigins := [pattern]), "GET", GetFrom(origin)))
         == NoHeaders.(vary := HeaderOrigin)
  {
    var o := DefaultOptions.(allowedOrigins := [pattern]);
    WildcardPolicy(o, pattern, w);
    assert Request("GET", GetFrom(origin)).Get(HeaderOrigin) == origin;
    ActualRejectedOutcome(o, "GET", GetFrom(origin));
  }

  /** The wildcard origin of the two wildcard cases, its split, and the origins the two cases send. */
  const BarPattern := "http://*.bar.com"
  const BarWildcard := Wildcard("http://", ".bar.com")
  const FooDotBar := "http://foo.bar.com"
  const FooDotBaz := "http://foo.baz.com"

  lemma BarPatternSplits()
    ensures BarPattern == BarWildcard.prefix + "*" + BarWildcard.suffix
    ensures '*' !in BarWildcard.prefix && BarWildcard.prefix + BarWildcard.suffix != ""
  {
  }

  lemma BarPatternLower()
    ensures ToLower(BarPattern) == BarPattern
  {
    LowerAlready(BarPattern);
  }

  lemma FooDotBarSpelled()
    ensures FooDotBar == BarWildcard.prefix + "foo" + BarWildcard.suffix
  {
  }

  lemma FooDotBarLower()
    ensures ToLower(FooDotBar) == FooDotBar
  {
    LowerAlready(FooDotBar);
  }

  lemma FooDotBarMatches()
    ensures BarWildcard.Match(FooDotBar) && ToLower(FooDotBar) == FooDotBar
  {
    FooDotBarSpelled();
    MatchAnyMiddle(BarWildcard, "foo");
    FooDotBarLower();
  }

  lemma FooDotBazMisses()
    ensures !BarWildcard.Match(FooDotBaz) && ToLower(FooDotBaz) == FooDotBaz
  {
    assert !BarWildcard.Match(FooDotBaz) by {
      assert FooDotBaz[|FooDotBaz| - 8..][3] != BarWildcard.suffix[3];
    }
    LowerAlready(FooDotBaz);
  }

  /** WildcardOrigin: an origin matching a wildcard origin is echoed. */
  lemma WildcardOrigin()
    ensures Inspect(Outcome(DefaultOptions.(allowedOrigins := [BarPattern]), "GET", GetFrom(FooDotBar)))
         == NoHeaders.(vary := HeaderOrigin, allowOrigin := FooDotBar)
  {
    BarPatternSplits();
    BarPatternLower();
    FooDotBarMatches();
    WildcardOriginEchoed(BarPattern, BarWildcard, FooDotBar);
  }

  /** DisallowedWildcardOrigin: an origin not matching the wildcard origin gets only Vary: Origin. */
  lemma DisallowedWildcardOrigin()
    ensures Inspect(Outcome(DefaultOptions.(allowedOrigins := [BarPattern]), "GET", GetFrom(FooDotBaz)))
         == NoHeaders.(vary := HeaderOrigin)
  {
    BarPatternSplits();
    BarPatternLower();
    FooDotBazMisses();
    WildcardOriginRejected(BarPattern, BarWildcard, FooDotBaz);
  }

  /** AllowedOriginFuncMatch: the origin function admits an origin starting with http://foo. */
  lemma AllowedOriginFuncMatch()
    ensures Inspect(Outcome(DefaultOptions.(allowOriginFunc := Some(StartsWithHttpFoo)), "GET", GetFrom(FooBar)))
         == NoHeaders.(vary := HeaderOrigin, allowOrigin := FooBar)
  {
    assert ToUpper("GET") == "GET";
    assert StartsWithHttpFoo(FooBar);
    ActualOutcome(DefaultOptions.(allowOriginFunc := Some(StartsWithHttpFoo)), "GET", GetFrom(FooBar));
  }

  /** AllowedOriginFuncNotMatch: the origin function rejects an origin not starting with http://foo. */
  lemma AllowedOriginFuncNotMatch()
    ensures Inspect(Outcome(DefaultOptions.(allowOriginFunc := Some(StartsWithHttpFoo)), "GET", GetFrom("http://barfoo.com")))
         == NoHeaders.(vary := HeaderOrigin)
  {
    assert "http://barfoo.com"[7] != "http://foo"[7];
    assert !StartsWithHttpFoo("http://barfoo.com");
    ActualRejectedOutcome(DefaultOptions.(allowOriginFunc := Some(StartsWithHttpFoo)), "GET", GetFrom("http://barfoo.com"));
  }

  /** A preflight from the one configured origin, for an allowed method and with allowed requested headers, passes. */
  lemma SingleOriginAdmits(o: Options, req: Request, origin: string)
    requires o.allowedOrigins == [origin] && origin != "" && '*' !in origin && o.allowOriginFunc.None?
    requires req.Get(HeaderOrigin) == origin && MethodAllowed(Compile(o), req.Get(HeaderRequestMethod))
    requires HeadersAllowed(Compile(o), RequestedHeaders(req))
    ensures PreflightAdmits(Compile(o), req)
  {
    assert OriginAllowed(Compile(o), origin) by {
      SingleOriginPolicy(o, origin);
    }
  }

  /**
   * A preflight from the one configured origin, for an allowed method and
   * with allowed requested headers, shows the origin, the upper-cased
   * method, the requested headers, and the credentials and max age the
   * options set.
   */
  lemma SingleOriginPreflight(o: Options, req: Request, origin: string)
    requires o.allowedOrigins == [origin] && origin != "" && '*' !in origin && o.allowOriginFunc.None?
    requires IsPreflight(req) && req.Get(HeaderOrigin) == origin
    requires MethodAllowed(Compile(o), req.Get(HeaderRequestMethod)) && HeadersAllowed(Compile(o), RequestedHeaders(req))
    ensures Inspect(Outcome(o, MethodOptions, req.header))
         == NoHeaders.(vary := PreflightVaryText, allowOrigin := origin, allowMethods := ToUpper(req.Get(HeaderRequestMethod)),
                       allowHeaders := Optional(|RequestedHeaders(req)| > 0, Join(RequestedHeaders(req), ", ")),
                       allowCredentials := Optional(o.allowCredentials, "true"),
                       maxAge := if o.maxAge > 0 then Itoa(o.maxAge) else "")
  {
    SingleOriginAdmits(o, req, origin);
    assert req == Request(MethodOptions, req.header);
    PreflightOutcome(o, req.header);
    assert AllowOriginValue(Compile(o), origin) == origin by {
      SingleOriginPolicy(o, origin);
    }
  }

  /** A preflight for GET from the one listed origin, with GET listed and a positive max age, is granted. */
  lemma GrantedWithMaxAge(origin: string, age: nat)
    requires origin != "" && '*' !in origin && age > 0
    ensures Inspect(Outcome(
              DefaultOptions.(allowedOrigins := [origin], allowedMethods := ["GET"], maxAge := age),
              MethodOptions, PreflightFrom(origin, "GET")))
         == NoHeaders.(vary := PreflightVaryText, allowOrigin := origin, allowMethods := "GET", maxAge := Itoa(age))
  {
    var o := DefaultOptions.(allowedOrigins := [origin], allowedMethods := ["GET"], maxAge := age);
    assert ToUpper("GET") == "GET";
    assert Compile(o).allowedMethods == ["GET"];
    PreflightFromReads(origin, "GET");
    NoRequestedHeaders(origin, "GET");
    assert HeadersAllowed(Compile(o), []);
    SingleOriginPreflight(o, Request(MethodOptions, PreflightFrom(origin, "GET")), origin);
  }

  /** MaxAge: a granted preflight carries the max age in decimal. */
  lemma MaxAge()
    ensures Inspect(Outcome(
              DefaultOptions.(allowedOrigins := ["http://example.com/"], allowedMethods := ["GET"], maxAge := 10),
              MethodOptions, PreflightFrom("http://example.com/", "GET")))
         == NoHeaders.(vary := PreflightVaryText, allowOrigin := "http://example.com/", allowMethods := "GET", maxAge := "10")
  {
    assert Itoa(10) == "10";
    GrantedWithMaxAge("http://example.com/", 10);
  }

  /** The methods of the two method cases. */
  const PutDelete := ["PUT", "DELETE"]

  /** A preflight for PUT from the one listed origin, with PUT and DELETE listed, is granted. */
  lemma ListedMethodGranted(origin: string)
    requires origin != "" && '*' !in origin
    ensures Inspect(Outcome(
              DefaultOptions.(allowedOrigins := [origin], allowedMethods := PutDelete),
              MethodOptions, PreflightFrom(origin, "PUT")))
         == NoHeaders.(vary := PreflightVaryText, allowOrigin := origin, allowMethods := "PUT")
  {
    var o := DefaultOptions.(allowedOrigins := [origin], allowedMethods := PutDelete);
    assert ToUpper("PUT") == "PUT";
    assert Compile(o).allowedMethods[0] == "PUT";
    PreflightFromReads(origin, "PUT");
    NoRequestedHeaders(origin, "PUT");
    assert HeadersAllowed(Compile(o), []);
    SingleOriginPreflight(o, Request(MethodOptions, PreflightFrom(origin, "PUT")), origin);
  }

  /** AllowedMethod: a listed method is granted, upper-cased. */
  lemma AllowedMethod()
    ensures Inspect(Outcome(
              DefaultOptions.(allowedOrigins := [FooBar], allowedMethods := PutDelete),
              MethodOptions, PreflightFrom(FooBar, "PUT")))
         == NoHeaders.(vary := PreflightVaryText, allowOrigin := FooBar, allowMethods := "PUT")
  {
    ListedMethodGranted(FooBar);
  }

  /** A preflight for PATCH, with only PUT and DELETE listed, gets only the Vary values. */
  lemma UnlistedMethodRejected(origin: string)
    ensures Inspect(Outcome(
              DefaultOptions.(allowedOrigins := [origin], allowedMethods := PutDelete),
              MethodOptions, PreflightFrom(origin, "PATCH")))
         == NoHeaders.(vary := PreflightVaryText)
  {
    var o := DefaultOptions.(allowedOrigins := [origin], allowedMethods := PutDelete);
    PreflightFromReads(origin, "PATCH");
    assert !PreflightAdmits(Compile(o), Request(MethodOptions, PreflightFrom(origin, "PATCH"))) by {
      assert !MethodAllowed(Compile(o), "PATCH");
    }
    PreflightRejectedOutcome(o, PreflightFrom(origin, "PATCH"));
  }

  /** DisallowedMethod: a method that is not listed gets only the Vary values. */
  lemma DisallowedMethod()
    ensures Inspect(Outcome(
              DefaultOptions.(allowedOrigins := [FooBar], allowedMethods := PutDelete),
              MethodOptions, PreflightFrom(FooBar, "PATCH")))
         == NoHeaders.(vary := PreflightVaryText)
  {
    UnlistedMethodRejected(FooBar);
  }

  /** A preflight for GET from the one listed origin, with credentials, is granted and allows credentials. */
  lemma CredentialedPreflight(origin: string)
    requires origin != "" && '*' !in origin
    ensures Inspect(Outcome(
              DefaultOptions.(allowedOrigins := [origin], allowCredentials := true),
              MethodOptions, PreflightFrom(origin, "GET")))
         == NoHeaders.(vary := PreflightVaryText, allowOrigin := origin, allowMethods := "GET", allowCredentials := "true")
  {
    var o := DefaultOptions.(allowedOrigins := [origin], allowCredentials := true);
    assert ToUpper("GET") == "GET";
    assert Compile(o).allowedMethods == DefaultAllowedMethods;
    PreflightFromReads(origin, "GET");
    NoRequestedHeaders(origin, "GET");
    assert HeadersAllowed(Compile(o), []);
    SingleOriginPreflight(o, Request(MethodOptions, PreflightFrom(origin, "GET")), origin);
  }

  /** AllowedCredentials: a granted preflight with credentials echoes the origin and allows credentials. */
  lemma AllowedCredentials()
    ensures Inspect(Outcome(
              DefaultOptions.(allowedOrigins := [FooBar], allowCredentials := true),
              MethodOptions, PreflightFrom(FooBar, "GET")))
         == NoHeaders.(vary := PreflightVaryText, allowOrigin := FooBar, allowMethods := "GET", allowCredentials := "true")
  {
    CredentialedPreflight(FooBar);
  }

  /** A preflight without requested headers, for an allowed method, under options with no origin list, no origin function and no credentials, is answered with "*". */
  lemma AnyOriginPreflight(o: Options, req: Request)
    requires o.allowedOrigins == [] && o.allowOriginFunc.None? && !o.allowCredentials && o.maxAge <= 0
    requires IsPreflight(req) && req.Get(HeaderOrigin) != ""
    requires MethodAllowed(Compile(o), req.Get(HeaderRequestMethod)) && RequestedHeaders(req) == []
    ensures Inspect(Outcome(o, MethodOptions, req.header))
         == NoHeaders.(vary := PreflightVaryText, allowOrigin := "*", allowMethods := ToUpper(req.Get(HeaderRequestMethod)))
  {
    assert PreflightAdmits(Compile(o), req) by {
      assert HeadersAllowed(Compile(o), []);
    }
    assert req == Request(MethodOptions, req.header);
    PreflightOutcome(o, req.header);
  }

  /** OptionPassthrough: the preflight is answered as usual and the downstream handler runs. */
  lemma OptionPassthrough()
    ensures Inspect(Outcome(DefaultOptions.(optionsPassthrough := true), MethodOptions, PreflightFrom(FooBar, "GET")))
         == NoHeaders.(vary := PreflightVaryText, allowOrigin := "*", allowMethods := "GET")
    ensures CallsDownstream(Compile(DefaultOptions.(optionsPassthrough := true)), Request(MethodOptions, PreflightFrom(FooBar, "GET")))
  {
    assert ToUpper("GET") == "GET";
    PreflightFromReads(FooBar, "GET");
    NoRequestedHeaders(FooBar, "GET");
    AnyOriginPreflight(DefaultOptions.(optionsPassthrough := true), Request(MethodOptions, PreflightFrom(FooBar, "GET")));
  }

  /** An OPTIONS request without Access-Control-Request-Method gets no header at all, whatever the options. */
  lemma OptionsWithoutRequestMethod(options: Options)
    ensures Inspect(Outcome(options, MethodOptions, map[])) == NoHeaders
  {
    NonPreflightOptions(Compile(options), Request(MethodOptions, map[]), map[]);
  }

  /** NonPreflightOptions: an OPTIONS request without Access-Control-Request-Method gets no header at all. */
  lemma NonPreflightOptionsCase()
    ensures Inspect(Outcome(DefaultOptions.(allowedOrigins := [FooBar]), MethodOptions, map[])) == NoHeaders
  {
    OptionsWithoutRequestMethod(DefaultOptions.(allowedOrigins := [FooBar]));
  }

  // ---------------------------------------------------------------------
  // The header cases

  /** The header map of PreflightWith reads back its origin, method and requested headers. */
  lemma PreflightWithReads(origin: string, verb: string, requested: string)
    ensures Request(MethodOptions, PreflightWith(origin, verb, requested)).Get(HeaderOrigin) == origin
    ensures Request(MethodOptions, PreflightWith(origin, verb, requested)).Get(HeaderRequestMethod) == verb
    ensures Request(MethodOptions, PreflightWith(origin, verb, requested)).Get(HeaderRequestHeaders) == requested
  {
    assert |HeaderOrigin| == 6 && |HeaderRequestMethod| == 29 && |HeaderRequestHeaders| == 30;
  }

  /** A preflight for GET from the one configured origin with the requested headers, under the default methods. */
  lemma ListedOriginPreflight(o: Options, origin: string, requested: string)
    requires o.allowedOrigins == [origin] && origin != "" && '*' !in origin && o.allowOriginFunc.None?
    requires o.allowedMethods == [] && HeadersAllowed(Compile(o), ParseHeaderList(requested))
    ensures Inspect(Outcome(o, MethodOptions, PreflightWith(origin, "GET", requested)))
         == NoHeaders.(vary := PreflightVaryText, allowOrigin := origin, allowMethods := "GET",
                       allowHeaders := Optional(|ParseHeaderList(requested)| > 0, Join(ParseHeaderList(requested), ", ")),
                       allowCredentials := Optional(o.allowCredentials, "true"),
                       maxAge := if o.maxAge > 0 then Itoa(o.maxAge) else "")
  {
    var req := Request(MethodOptions, PreflightWith(origin, "GET", requested));
    PreflightWithReads(origin, "GET", requested);
    assert ToUpper("GET") == "GET";
    assert MethodAllowed(Compile(o), "GET") by {
      assert Compile(o).allowedMethods == DefaultAllowedMethods;
    }
    SingleOriginPreflight(o, req, origin);
  }

  /** A preflight for GET whose requested headers are refused gets only the Vary values. */
  lemma HeadersRefused(o: Options, origin: string, requested: string)
    requires !HeadersAllowed(Compile(o), ParseHeaderList(requested))
    ensures Inspect(Outcome(o, MethodOptions, PreflightWith(origin, "GET", requested)))
         == NoHeaders.(vary := PreflightVaryText)
  {
    PreflightWithReads(origin, "GET", requested);
    PreflightRejectedOutcome(o, PreflightWith(origin, "GET", requested));
  }

  /** The origin of most cases is a non-empty origin without '*'. */
  lemma FooBarPlain()
    ensures FooBar != "" && '*' !in FooBar
  {
  }

  /** The header names of the header cases. */
  const XHeader1 := "X-Header-1"
  const XHeader2 := "X-Header-2"
  const XHeader3 := "X-Header-3"

  lemma XHeader1Canonical()
    ensures CanonicalHeaderKey(XHeader1) == XHeader1
  {
    CanonicalIs(XHeader1, XHeader1);
  }

  lemma XHeader1Upper()
    ensures CanonicalHeaderKey("X-HEADER-1") == XHeader1
  {
    CanonicalIs("X-HEADER-1", XHeader1);
  }

  lemma XHeader2Canonical()
    ensures CanonicalHeaderKey(XHeader2) == XHeader2
  {
    CanonicalIs(XHeader2, XHeader2);
  }

  lemma XHeader2Lower()
    ensures CanonicalHeaderKey("x-header-2") == XHeader2
  {
    CanonicalIs("x-header-2", XHeader2);
  }

  lemma XHeader3Canonical()
    ensures CanonicalHeaderKey(XHeader3) == XHeader3
  {
    CanonicalIs(XHeader3, XHeader3);
  }

  lemma OriginCanonical()
    ensures CanonicalHeaderKey(HeaderOrigin) == HeaderOrigin
  {
    CanonicalIs(HeaderOrigin, HeaderOrigin);
  }

  lemma OriginLower()
    ensures CanonicalHeaderKey("origin") == HeaderOrigin
  {
    CanonicalIs("origin", HeaderOrigin);
  }

  /** The last default allowed header, X-Requested-With. */
  const RequestedWith := "X-Requested-With"

  lemma RequestedWithDefault()
    ensures DefaultAllowedHeaders[3] == RequestedWith && HeaderOrigin in DefaultAllowedHeaders
  {
  }

  lemma RequestedWithCanonical()
    ensures CanonicalHeaderKey(RequestedWith) == RequestedWith
  {
    CanonicalIs(RequestedWith, RequestedWith);
  }

  lemma RequestedWithItem()
    ensures ListItem(RequestedWith)
  {
  }

  /** The allowed headers of AllowedHeaders and DisallowedHeader, and the exposed headers of ExposedHeader, as configured. */
  const ConfiguredHeaders := ["X-Header-1", "x-header-2"]

  lemma ConfiguredHeadersNoStar()
    ensures "*" !in ConfiguredHeaders && |ConfiguredHeaders| == 2
  {
    assert |ConfiguredHeaders[0]| == 10 && |ConfiguredHeaders[1]| == 10;
  }

  /** The configured headers, canonicalised. */
  lemma ConfiguredHeadersConvert()
    ensures Convert(ConfiguredHeaders, CanonicalHeaderKey) == [XHeader1, XHeader2]
  {
    XHeader1Canonical();
    XHeader2Lower();
  }

  /** As allowed headers they compile to their canonical forms followed by Origin. */
  lemma ConfiguredHeadersCompile(o: Options)
    requires o.allowedHeaders == ConfiguredHeaders
    ensures !Compile(o).allowedHeadersAll && Compile(o).allowedHeaders == [XHeader1, XHeader2, HeaderOrigin]
  {
    ConfiguredHeadersNoStar();
    var all := ConfiguredHeaders + [HeaderOrigin];
    assert Convert(all, CanonicalHeaderKey) == [XHeader1, XHeader2, HeaderOrigin] by {
      ConfiguredHeadersConvert();
      OriginCanonical();
      assert all[..2] == ConfiguredHeaders;
    }
  }

  /** The Access-Control-Request-Headers values of the header cases. */
  const RequestedPair := "X-Header-2, X-HEADER-1"
  const RequestedUnknown := "X-Header-3, X-Header-1"

  /** Two list items joined with ", " parse to their canonical forms. */
  lemma ParseTwo(a: string, b: string)
    requires ListItem(a) && ListItem(b)
    ensures ParseHeaderList(a + ", " + b) == [CanonicalHeaderKey(a), CanonicalHeaderKey(b)]
  {
    var ts := [a, b];
    assert Join(ts, ", ") == a + ", " + b by {
      assert ts[1..] == [b];
    }
    ParseJoinAfter("", ts);
    assert "" + Join(ts, ", ") == a + ", " + b;
  }

  /** One list item parses to its canonical form. */
  lemma ParseOne(t: string)
    requires ListItem(t)
    ensures ParseHeaderList(t) == [CanonicalHeaderKey(t)]
  {
    ParseLeadItem("", t);
    assert "" + t == t;
  }

  lemma RequestedPairSplits()
    ensures RequestedPair == XHeader2 + ", " + "X-HEADER-1"
    ensures ListItem(XHeader2) && ListItem("X-HEADER-1")
  {
  }

  lemma RequestedPairParses()
    ensures ParseHeaderList(RequestedPair) == [XHeader2, XHeader1]
  {
    RequestedPairSplits();
    ParseTwo(XHeader2, "X-HEADER-1");
    XHeader1Upper();
    XHeader2Canonical();
  }

  lemma RequestedUnknownSplits()
    ensures RequestedUnknown == XHeader3 + ", " + XHeader1
    ensures ListItem(XHeader3) && ListItem(XHeader1)
  {
  }

  lemma RequestedUnknownParses()
    ensures ParseHeaderList(RequestedUnknown) == [XHeader3, XHeader1]
  {
    RequestedUnknownSplits();
    ParseTwo(XHeader3, XHeader1);
    XHeader1Canonical();
    XHeader3Canonical();
  }

  /** X-Header-3 is none of X-Header-1, X-Header-2 and Origin. */
  lemma XHeader3Unlisted()
    ensures XHeader3 !in [XHeader1, XHeader2, HeaderOrigin]
  {
    assert XHeader3[9] != XHeader1[9] && XHeader3[9] != XHeader2[9] && |XHeader3| != |HeaderOrigin|;
  }

  lemma EchoedPair()
    ensures Join([XHeader2, XHeader1], ", ") == "X-Header-2, X-Header-1"
  {
    assert [XHeader2, XHeader1][1..] == [XHeader1];
  }

  lemma ExposedPair()
    ensures Join([XHeader1, XHeader2], ", ") == "X-Header-1, X-Header-2"
  {
    assert [XHeader1, XHeader2][1..] == [XHeader2];
  }

  /** AllowedHeaders: requested headers that are all allowed are echoed in canonical form. */
  lemma AllowedHeaders()
    ensures Inspect(Outcome(DefaultOptions.(allowedOrigins := [FooBar], allowedHeaders := ConfiguredHeaders),
                            MethodOptions, PreflightWith(FooBar, "GET", RequestedPair)))
         == NoHeaders.(vary := PreflightVaryText, allowOrigin := FooBar, allowMethods := "GET",
                       allowHeaders := "X-Header-2, X-Header-1")
  {
    var o := DefaultOptions.(allowedOrigins := [FooBar], allowedHeaders := ConfiguredHeaders);
    RequestedPairParses();
    ConfiguredHeadersAllow(o);
    EchoedPair();
    FooBarPlain();
    ListedOriginPreflight(o, FooBar, RequestedPair);
  }

  /** DisallowedHeader: a request that names one header not allowed gets only the Vary values. */
  lemma DisallowedHeader()
    ensures Inspect(Outcome(DefaultOptions.(allowedOrigins := [FooBar], allowedHeaders := ConfiguredHeaders),
                            MethodOptions, PreflightWith(FooBar, "GET", RequestedUnknown)))
         == NoHeaders.(vary := PreflightVaryText)
  {
    var o := DefaultOptions.(allowedOrigins := [FooBar], allowedHeaders := ConfiguredHeaders);
    RequestedUnknownParses();
    ConfiguredHeadersRefuse(o);
    HeadersRefused(o, FooBar, RequestedUnknown);
  }

  /** AllowedWildcardHeader: with "*" allowed, any requested headers are echoed in canonical form. */
  lemma AllowedWildcardHeader()
    ensures Inspect(Outcome(DefaultOptions.(allowedOrigins := [FooBar], allowedHeaders := ["*"]),
                            MethodOptions, PreflightWith(FooBar, "GET", RequestedPair)))
         == NoHeaders.(vary := PreflightVaryText, allowOrigin := FooBar, allowMethods := "GET",
                       allowHeaders := "X-Header-2, X-Header-1")
  {
    var o := DefaultOptions.(allowedOrigins := [FooBar], allowedHeaders := ["*"]);
    RequestedPairParses();
    assert Compile(o).allowedHeadersAll;
    EchoedPair();
    FooBarPlain();
    ListedOriginPreflight(o, FooBar, RequestedPair);
  }

  /** Each of X-Header-2 and X-Header-1 is canonical and among the compiled configured headers. */
  lemma PairListed(allowed: seq<string>)
    requires allowed == [XHeader1, XHeader2, HeaderOrigin]
    ensures forall h :: h in [XHeader2, XHeader1] ==> CanonicalHeaderKey(h) in allowed
  {
    XHeader1Canonical();
    XHeader2Canonical();
  }

  /** X-Header-3 is requested, canonical and not among the compiled configured headers. */
  lemma UnknownUnlisted(allowed: seq<string>)
    requires allowed == [XHeader1, XHeader2, HeaderOrigin]
    ensures XHeader3 in [XHeader3, XHeader1] && CanonicalHeaderKey(XHeader3) !in allowed
  {
    XHeader3Canonical();
    XHeader3Unlisted();
  }

  /** The configured headers allow X-Header-2 and X-Header-1. */
  lemma ConfiguredHeadersAllow(o: Options)
    requires o.allowedHeaders == ConfiguredHeaders
    ensures HeadersAllowed(Compile(o), [XHeader2, XHeader1])
  {
    ConfiguredHeadersCompile(o);
    PairListed(Compile(o).allowedHeaders);
  }

  /** The configured headers refuse X-Header-3. */
  lemma ConfiguredHeadersRefuse(o: Options)
    requires o.allowedHeaders == ConfiguredHeaders
    ensures !HeadersAllowed(Compile(o), [XHeader3, XHeader1])
  {
    ConfiguredHeadersCompile(o);
    UnknownUnlisted(Compile(o).allowedHeaders);
  }

  /** The default allowed headers allow Origin and X-Requested-With. */
  lemma DefaultHeadersAllow(o: Options)
    requires o.allowedHeaders == []
    ensures HeadersAllowed(Compile(o), [HeaderOrigin]) && HeadersAllowed(Compile(o), [RequestedWith])
  {
    RequestedWithDefault();
    OriginCanonical();
    RequestedWithCanonical();
  }

  /** DefaultAllowedHeaders: with no allowed headers configured, X-Requested-With is among the defaults. */
  lemma DefaultAllowedHeadersCase()
    ensures Inspect(Outcome(DefaultOptions.(allowedOrigins := [FooBar]),
                            MethodOptions, PreflightWith(FooBar, "GET", RequestedWith)))
         == NoHeaders.(vary := PreflightVaryText, allowOrigin := FooBar, allowMethods := "GET",
                       allowHeaders := RequestedWith)
  {
    var o := DefaultOptions.(allowedOrigins := [FooBar]);
    RequestedWithItem();
    ParseOne(RequestedWith);
    RequestedWithCanonical();
    DefaultHeadersAllow(o);
    FooBarPlain();
    ListedOriginPreflight(o, FooBar, RequestedWith);
  }

  lemma OriginItem()
    ensures ListItem("origin")
  {
  }

  /** OriginHeader: a lower-case request for origin is granted as Origin, which the defaults allow. */
  lemma OriginHeader()
    ensures Inspect(Outcome(DefaultOptions.(allowedOrigins := [FooBar]),
                            MethodOptions, PreflightWith(FooBar, "GET", "origin")))
         == NoHeaders.(vary := PreflightVaryText, allowOrigin := FooBar, allowMethods := "GET",
                       allowHeaders := HeaderOrigin)
  {
    var o := DefaultOptions.(allowedOrigins := [FooBar]);
    OriginItem();
    ParseOne("origin");
    OriginLower();
    DefaultHeadersAllow(o);
    FooBarPlain();
    ListedOriginPreflight(o, FooBar, "origin");
  }

  /** A GET from the one configured origin, under the default methods, lists the exposed headers in canonical form. */
  lemma ListedOriginExposes(o: Options, origin: string)
    requires o.allowedOrigins == [origin] && origin != "" && '*' !in origin && o.allowOriginFunc.None?
    requires o.allowedMethods == [] && !o.allowCredentials
    ensures Inspect(Outcome(o, "GET", GetFrom(origin)))
         == NoHeaders.(vary := HeaderOrigin, allowOrigin := origin,
                       exposeHeaders := Optional(|o.exposedHeaders| > 0, Join(Convert(o.exposedHeaders, CanonicalHeaderKey), ", ")))
  {
    SingleOriginPolicy(o, origin);
    assert ToUpper("GET") == "GET";
    assert Request("GET", GetFrom(origin)).Get(HeaderOrigin) == origin;
    ActualOutcome(o, "GET", GetFrom(origin));
  }

  /** ExposedHeader: a granted GET lists the exposed headers in canonical form. */
  lemma ExposedHeader()
    ensures Inspect(Outcome(DefaultOptions.(allowedOrigins := [FooBar], exposedHeaders := ConfiguredHeaders),
                            "GET", GetFrom(FooBar)))
         == NoHeaders.(vary := HeaderOrigin, allowOrigin := FooBar, exposeHeaders := "X-Header-1, X-Header-2")
  {
    ConfiguredHeadersNoStar();
    ConfiguredHeadersConvert();
    ExposedPair();
    FooBarPlain();
    ListedOriginExposes(DefaultOptions.(allowedOrigins := [FooBar], exposedHeaders := ConfiguredHeaders), FooBar);
  }

  /** The zero options reject PUT. */
  lemma DefaultRejectsPut()
    ensures !MethodAllowed(Compile(DefaultOptions), "PUT")
  {
    assert ToUpper("PUT") == "PUT";
  }

  /** The zero options admit OPTIONS. */
  lemma DefaultAllowsOptions()
    ensures MethodAllowed(Compile(DefaultOptions), MethodOptions)
  {
    assert ToUpper(MethodOptions) == MethodOptions;
  }
}

/**
 * What the compiled policy admits, stated against the options New is
 * given, and what each negotiation chain leaves in the response header
 * map, name by name.
 */
module CorsProperties {
  import opened Wrappers
  import opened Text
  import opened Http
  import opened Utils
  import opened CorsPolicy

  // ---------------------------------------------------------------------
  // Origin compilation and admission

  /**
   * What one configured origin, lower-cased, admits of a lower-cased
   * request origin: a pattern with a '*' admits what its wildcard matches,
   * any other entry admits only itself.
   */
  predicate EntryAdmits(entry: string, lowered: string) {
    if '*' in entry then SplitWildcard(entry).Match(lowered) else entry == lowered
  }

  /** The entry "*" admits every origin. */
  lemma StarEntryAdmitsAll(lowered: string)
    ensures EntryAdmits("*", lowered)
  {
    var w := SplitWildcard("*");
    assert |w.prefix| + 1 + |w.suffix| == 1;
  }

  /** The scan sets allow-all exactly when some entry lower-cases to "*", and then keeps no origin. */
  lemma {:induction false} ScanOriginsAll(rest: seq<string>, exact: seq<string>, wild: seq<Wildcard>)
    ensures ScanOrigins(rest, exact, wild).all <==> "*" in Convert(rest, ToLower)
    ensures ScanOrigins(rest, exact, wild).all ==>
              ScanOrigins(rest, exact, wild).exact == [] && ScanOrigins(rest, exact, wild).wild == []
    decreases |rest|
  {
    if rest != [] && ToLower(rest[0]) != "*" {
      var origin := ToLower(rest[0]);
      if '*' in origin {
        ScanOriginsAll(rest[1..], exact, wild + [SplitWildcard(origin)]);
      } else {
        ScanOriginsAll(rest[1..], exact + [origin], wild);
      }
    }
  }

  /** Without a "*" entry, every entry lands in exactly one of the two lists. */
  lemma {:induction false} ScanOriginsCount(rest: seq<string>, exact: seq<string>, wild: seq<Wildcard>)
    requires "*" !in Convert(rest, ToLower)
    ensures !ScanOrigins(rest, exact, wild).all
    ensures |ScanOrigins(rest, exact, wild).exact| + |ScanOrigins(rest, exact, wild).wild|
         == |exact| + |wild| + |rest|
    decreases |rest|
  {
    if rest != [] {
      var origin := ToLower(rest[0]);
      ConvertCons(rest, ToLower);
      if '*' in origin {
        ScanOriginsCount(rest[1..], exact, wild + [SplitWildcard(origin)]);
      } else {
        ScanOriginsCount(rest[1..], exact + [origin], wild);
      }
    }
  }

  /** Without a "*" entry, the exact origins are the lower-cased entries without a '*'. */
  lemma {:induction false} ScanOriginsExact(rest: seq<string>, exact: seq<string>, wild: seq<Wildcard>)
    requires "*" !in Convert(rest, ToLower)
    ensures forall o :: o in ScanOrigins(rest, exact, wild).exact <==>
              o in exact || (o in Convert(rest, ToLower) && '*' !in o)
    decreases |rest|
  {
    if rest != [] {
      var origin := ToLower(rest[0]);
      ConvertCons(rest, ToLower);
      if '*' in origin {
        ScanOriginsExact(rest[1..], exact, wild + [SplitWildcard(origin)]);
      } else {
        ScanOriginsExact(rest[1..], exact + [origin], wild);
      }
    }
  }

  /** Without a "*" entry, the wildcards are the lower-cased entries with a '*', split at the first one. */
  lemma {:induction false} ScanOriginsWild(rest: seq<string>, exact: seq<string>, wild: seq<Wildcard>)
    requires "*" !in Convert(rest, ToLower)
    ensures forall x :: x in ScanOrigins(rest, exact, wild).wild <==>
              || x in wild
              || exists e :: e in Convert(rest, ToLower) && '*' in e && x == SplitWildcard(e)
    decreases |rest|
  {
    if rest != [] {
      var origin := ToLower(rest[0]);
      ConvertCons(rest, ToLower);
      if '*' in origin {
        ScanOriginsWild(rest[1..], exact, wild + [SplitWildcard(origin)]);
      } else {
        ScanOriginsWild(rest[1..], exact + [origin], wild);
      }
    }
  }

  /** The origin lists a scan leaves admit what the entries scanned and those kept before admit. */
  lemma ScanAdmits(rest: seq<string>, exact: seq<string>, wild: seq<Wildcard>, lowered: string)
    ensures
      var t := ScanOrigins(rest, exact, wild);
      (t.all || lowered in t.exact || exists x :: x in t.wild && x.Match(lowered))
      <==>
      || lowered in exact
      || (exists x :: x in wild && x.Match(lowered))
      || exists e :: e in Convert(rest, ToLower) && EntryAdmits(e, lowered)
  {
    var entries := Convert(rest, ToLower);
    ScanOriginsAll(rest, exact, wild);
    if "*" in entries {
      StarEntryAdmitsAll(lowered);
    } else {
      ScanOriginsExact(rest, exact, wild);
      ScanOriginsWild(rest, exact, wild);
      var t := ScanOrigins(rest, exact, wild);
      if exists e :: e in entries && EntryAdmits(e, lowered) {
        var e :| e in entries && EntryAdmits(e, lowered);
        if '*' in e {
          assert SplitWildcard(e) in t.wild;
        } else {
          assert lowered in t.exact;
        }
      }
      if exists x :: x in t.wild && x.Match(lowered) {
        var x :| x in t.wild && x.Match(lowered);
        if x !in wild {
          var e :| e in entries && '*' in e && x == SplitWildcard(e);
          assert EntryAdmits(e, lowered);
        }
      }
    }
  }

  /**
   * Without an origin function, a compiled policy admits an origin exactly
   * when no origins were configured or some configured entry admits it,
   * both compared lower-cased.
   */
  lemma CompiledOriginAllowed(options: Options, origin: string)
    requires options.allowOriginFunc.None?
    ensures OriginAllowed(Compile(options), origin) <==>
              || |options.allowedOrigins| == 0
              || exists e :: e in Convert(options.allowedOrigins, ToLower) && EntryAdmits(e, ToLower(origin))
  {
    if |options.allowedOrigins| > 0 {
      ScanAdmits(options.allowedOrigins, [], [], ToLower(origin));
    }
  }

  /** An origin function decides admission alone: the configured origins play no part in it. */
  lemma CompiledOriginFunc(options: Options, origin: string)
    requires options.allowOriginFunc.Some?
    ensures OriginAllowed(Compile(options), origin) == options.allowOriginFunc.value(origin)
  {
  }

  /**
   * A "*" among the configured origins still sets allow-all beside an
   * origin function, so the function admits but the Allow-Origin value is
   * "*" unless credentials are allowed; without "*" it is the origin.
   */
  lemma OriginFuncAllowOrigin(options: Options, origin: string)
    requires options.allowOriginFunc.Some?
    ensures Compile(options).allowedOriginsAll <==> "*" in Convert(options.allowedOrigins, ToLower)
    ensures AllowOriginValue(Compile(options), origin) ==
              if "*" in Convert(options.allowedOrigins, ToLower) && !options.allowCredentials then "*" else origin
  {
    if |options.allowedOrigins| > 0 {
      ScanOriginsAll(options.allowedOrigins, [], []);
    }
  }

  /**
   * Options listing "*" among both the origins and the headers, without an
   * origin function, admit every origin and every header list; the origin
   * is echoed when credentials are allowed and "*" is sent otherwise.
   */
  lemma StarOptionsAdmit(options: Options, origin: string, requested: seq<string>)
    requires options.allowOriginFunc.None?
    requires "*" in options.allowedOrigins && "*" in options.allowedHeaders
    ensures OriginAllowed(Compile(options), origin)
    ensures HeadersAllowed(Compile(options), requested)
    ensures AllowOriginValue(Compile(options), origin) == if options.allowCredentials then origin else "*"
  {
    var i :| 0 <= i < |options.allowedOrigins| && options.allowedOrigins[i] == "*";
    assert ToLower("*")[0] == '*';
    assert Convert(options.allowedOrigins, ToLower)[i] == "*";
    ScanOriginsAll(options.allowedOrigins, [], []);
  }

  /** AllowAll admits every origin and every header list, and echoes the origin because it allows credentials. */
  lemma AllowAllAdmits(origin: string, requested: seq<string>)
    ensures OriginAllowed(Compile(AllowAllOptions), origin)
    ensures HeadersAllowed(Compile(AllowAllOptions), requested)
    ensures Compile(AllowAllOptions).allowCredentials
    ensures AllowOriginValue(Compile(AllowAllOptions), origin) == origin
  {
    assert AllowAllOptions.allowedOrigins[0] == "*";
    assert AllowAllOptions.allowedHeaders[0] == "*";
    StarOptionsAdmit(AllowAllOptions, origin, requested);
  }

  /**
   * Default admits every origin with the value "*", allows no
   * credentials, and keeps the default method and header lists.
   */
  lemma DefaultAdmits(origin: string)
    ensures OriginAllowed(Compile(DefaultOptions), origin)
    ensures AllowOriginValue(Compile(DefaultOptions), origin) == "*"
    ensures Compile(DefaultOptions).allowedMethods == DefaultAllowedMethods
    ensures Compile(DefaultOptions).allowedHeaders == DefaultAllowedHeaders
    ensures !Compile(DefaultOptions).allowedHeadersAll
  {
  }

  // ---------------------------------------------------------------------
  // Header compilation and admission

  /** The name "Origin" is already canonical. */
  lemma OriginIsCanonical()
    ensures IsCanonical(HeaderOrigin)
  {
    var s := HeaderOrigin;
    forall i | 0 <= i < |s|
      ensures CanonicalHeaderKey(s)[i] == s[i]
    {
      CanonicalAt(s, i);
      if i == 0 {
      } else if i == 1 {
      } else if i == 2 {
      } else if i == 3 {
      } else if i == 4 {
      } else {
        assert i == 5;
      }
    }
  }

  /** A requested header is listed: it is Origin or a configured name, compared canonically. */
  predicate HeaderListed(configured: seq<string>, h: string) {
    || CanonicalHeaderKey(h) == HeaderOrigin
    || exists j :: 0 <= j < |configured| && CanonicalHeaderKey(h) == CanonicalHeaderKey(configured[j])
  }

  /**
   * A compiled policy admits a list of requested headers exactly when: with
   * no configured headers, every one is a default header; with a "*" entry,
   * always; otherwise every one is listed (Origin is always listed).
   */
  lemma CompiledHeadersAllowed(options: Options, requested: seq<string>)
    ensures HeadersAllowed(Compile(options), requested) <==>
              if |options.allowedHeaders| == 0 then
                forall h :: h in requested ==> CanonicalHeaderKey(h) in DefaultAllowedHeaders
              else
                "*" in options.allowedHeaders || forall h :: h in requested ==> HeaderListed(options.allowedHeaders, h)
  {
    var configured := options.allowedHeaders;
    if |configured| > 0 && "*" !in configured {
      var all := configured + [HeaderOrigin];
      OriginIsCanonical();
      forall h
        ensures CanonicalHeaderKey(h) in Convert(all, CanonicalHeaderKey) <==> HeaderListed(configured, h)
      {
        ConvertMembers(all, CanonicalHeaderKey, CanonicalHeaderKey(h));
        if HeaderListed(configured, h) {
          if CanonicalHeaderKey(h) == HeaderOrigin {
            assert HeaderOrigin == CanonicalHeaderKey(all[|configured|]);
          } else {
            var j :| 0 <= j < |configured| && CanonicalHeaderKey(h) == CanonicalHeaderKey(configured[j]);
            assert all[j] == configured[j];
          }
        }
        if CanonicalHeaderKey(h) in Convert(all, CanonicalHeaderKey) {
          var j :| 0 <= j < |all| && CanonicalHeaderKey(h) == CanonicalHeaderKey(all[j]);
          if j < |configured| {
            assert all[j] == configured[j];
          } else {
            assert all[j] == HeaderOrigin;
          }
        }
      }
    }
  }

  /** Header admission is all or nothing: a list is admitted exactly when both of its parts are. */
  lemma HeadersAllOrNothing(p: Policy, a: seq<string>, b: seq<string>)
    ensures HeadersAllowed(p, a + b) <==> HeadersAllowed(p, a) && HeadersAllowed(p, b)
  {
  }

  // ---------------------------------------------------------------------
  // Method compilation and admission

  /** New never leaves the method list empty. */
  lemma CompiledMethodsNonEmpty(options: Options)
    ensures |Compile(options).allowedMethods| > 0
  {
  }

  /**
   * A compiled policy admits a method exactly when, upper-cased, it is
   * OPTIONS, or one of the defaults when no methods were configured, or
   * one of the configured methods upper-cased.
   */
  lemma CompiledMethodAllowed(options: Options, verb: string)
    ensures MethodAllowed(Compile(options), verb) <==>
              || ToUpper(verb) == MethodOptions
              || if |options.allowedMethods| == 0 then ToUpper(verb) in DefaultAllowedMethods
                 else exists i :: 0 <= i < |options.allowedMethods| && ToUpper(options.allowedMethods[i]) == ToUpper(verb)
  {
    if |options.allowedMethods| > 0 {
      ConvertMembers(options.allowedMethods, ToUpper, ToUpper(verb));
    }
  }

  /** An empty method list rejects every method, OPTIONS included. */
  lemma EmptyMethodsRejectAll(p: Policy, verb: string)
    requires |p.allowedMethods| == 0
    ensures !MethodAllowed(p, verb)
  {
  }

  // ---------------------------------------------------------------------
  // The grant writes of the two chains, on their own

  /** The optional writes of a preflight grant, as steps on a header map. */
  function OptionalSteps(p: Policy, requested: seq<string>, m: HeaderMap): HeaderMap {
    var echoed := StepWhen(m, |requested| > 0, Replace(HeaderAllowHeaders, Join(requested, ", ")));
    var credentialed := StepWhen(echoed, p.allowCredentials, Replace(HeaderAllowCredentials, "true"));
    if p.maxAge > 0 then Step(credentialed, Replace(HeaderMaxAge, Itoa(p.maxAge))) else credentialed
  }

  /** The optional writes, performed, are the optional steps. */
  lemma ApplyOptional(p: Policy, requested: seq<string>, m: HeaderMap)
    ensures Apply(m, PreflightOptional(p, requested)) == OptionalSteps(p, requested, m)
  {
    var echo := When(|requested| > 0, Replace(HeaderAllowHeaders, Join(requested, ", ")));
    var cred := When(p.allowCredentials, Replace(HeaderAllowCredentials, "true"));
    var age: seq<Write> := if p.maxAge > 0 then [Replace(HeaderMaxAge, Itoa(p.maxAge))] else [];
    ApplyConcat(m, echo + cred, age);
    ApplyConcat(m, echo, cred);
    ApplyWhen(m, |requested| > 0, Replace(HeaderAllowHeaders, Join(requested, ", ")));
    ApplyWhen(Apply(m, echo), p.allowCredentials, Replace(HeaderAllowCredentials, "true"));
  }

  /** A preflight grant is the two fixed writes followed by the optional steps. */
  lemma GrantSteps(p: Policy, origin: string, reqMethod: string, requested: seq<string>, m: HeaderMap)
    ensures Apply(m, PreflightGrant(p, origin, reqMethod, requested))
         == OptionalSteps(p, requested,
              Step(Step(m, Replace(HeaderAllowOrigin, AllowOriginValue(p, origin))),
                   Replace(HeaderAllowMethods, ToUpper(reqMethod))))
  {
    var fixed := [Replace(HeaderAllowOrigin, AllowOriginValue(p, origin)), Replace(HeaderAllowMethods, ToUpper(reqMethod))];
    ApplyConcat(m, fixed, PreflightOptional(p, requested));
    ApplyPair(m, fixed[0], fixed[1]);
    ApplyOptional(p, requested, Apply(m, fixed));
  }

  /** Every grant write replaces, and none is to Vary or Access-Control-Expose-Headers. */
  lemma PreflightGrantNamed(p: Policy, origin: string, reqMethod: string, requested: seq<string>)
    ensures forall i :: 0 <= i < |PreflightGrant(p, origin, reqMethod, requested)| ==>
              && PreflightGrant(p, origin, reqMethod, requested)[i].Replace?
              && PreflightGrant(p, origin, reqMethod, requested)[i].name in PreflightHeaderNames
              && PreflightGrant(p, origin, reqMethod, requested)[i].name != HeaderVary
  {
  }

  /** The grant sets Access-Control-Allow-Origin to the allow-origin value. */
  lemma GrantAllowOrigin(p: Policy, origin: string, reqMethod: string, requested: seq<string>, m: HeaderMap)
    ensures HeaderAllowOrigin in Apply(m, PreflightGrant(p, origin, reqMethod, requested))
    ensures Apply(m, PreflightGrant(p, origin, reqMethod, requested))[HeaderAllowOrigin] == [AllowOriginValue(p, origin)]
  {
    GrantSteps(p, origin, reqMethod, requested, m);
  }

  /** The grant sets Access-Control-Allow-Methods to the requested method, upper-cased. */
  lemma GrantAllowMethods(p: Policy, origin: string, reqMethod: string, requested: seq<string>, m: HeaderMap)
    ensures HeaderAllowMethods in Apply(m, PreflightGrant(p, origin, reqMethod, requested))
    ensures Apply(m, PreflightGrant(p, origin, reqMethod, requested))[HeaderAllowMethods] == [ToUpper(reqMethod)]
  {
    GrantSteps(p, origin, reqMethod, requested, m);
  }

  /** The grant sets Access-Control-Allow-Headers exactly when headers were requested. */
  lemma GrantAllowHeaders(p: Policy, origin: string, reqMethod: string, requested: seq<string>, m: HeaderMap)
    ensures |requested| > 0 ==>
              && HeaderAllowHeaders in Apply(m, PreflightGrant(p, origin, reqMethod, requested))
              && Apply(m, PreflightGrant(p, origin, reqMethod, requested))[HeaderAllowHeaders] == [Join(requested, ", ")]
    ensures |requested| == 0 ==> SameEntry(Apply(m, PreflightGrant(p, origin, reqMethod, requested)), m, HeaderAllowHeaders)
  {
    GrantSteps(p, origin, reqMethod, requested, m);
  }

  /** The grant sets Access-Control-Allow-Credentials exactly when credentials are on. */
  lemma GrantCredentials(p: Policy, origin: string, reqMethod: string, requested: seq<string>, m: HeaderMap)
    ensures p.allowCredentials ==>
              && HeaderAllowCredentials in Apply(m, PreflightGrant(p, origin, reqMethod, requested))
              && Apply(m, PreflightGrant(p, origin, reqMethod, requested))[HeaderAllowCredentials] == ["true"]
    ensures !p.allowCredentials ==> SameEntry(Apply(m, PreflightGrant(p, origin, reqMethod, requested)), m, HeaderAllowCredentials)
  {
    GrantSteps(p, origin, reqMethod, requested, m);
  }

  /** The grant sets Access-Control-Max-Age exactly when the max age is positive. */
  lemma GrantMaxAge(p: Policy, origin: string, reqMethod: string, requested: seq<string>, m: HeaderMap)
    ensures p.maxAge > 0 ==>
              && HeaderMaxAge in Apply(m, PreflightGrant(p, origin, reqMethod, requested))
              && Apply(m, PreflightGrant(p, origin, reqMethod, requested))[HeaderMaxAge] == [Itoa(p.maxAge)]
    ensures p.maxAge <= 0 ==> SameEntry(Apply(m, PreflightGrant(p, origin, reqMethod, requested)), m, HeaderMaxAge)
  {
    GrantSteps(p, origin, reqMethod, requested, m);
  }

  /** Every grant write of an actual request replaces, and none is to Vary or a preflight-only name. */
  lemma ActualGrantNamed(p: Policy, origin: string)
    ensures forall i :: 0 <= i < |ActualGrant(p, origin)| ==>
              && ActualGrant(p, origin)[i].Replace?
              && ActualGrant(p, origin)[i].name in ActualHeaderNames
              && ActualGrant(p, origin)[i].name != HeaderVary
  {
  }

  /** The grant of an actual request sets Access-Control-Allow-Origin to the allow-origin value. */
  lemma ActualGrantAllowOrigin(p: Policy, origin: string, m: HeaderMap)
    ensures HeaderAllowOrigin in Apply(m, ActualGrant(p, origin))
    ensures Apply(m, ActualGrant(p, origin))[HeaderAllowOrigin] == [AllowOriginValue(p, origin)]
  {
    var g := ActualGrant(p, origin);
    assert Untouched(g[1..], HeaderAllowOrigin);
    ApplyReplaceAt(m, g, 0);
  }

  /** The grant of an actual request sets Access-Control-Expose-Headers exactly when headers are exposed. */
  lemma ActualGrantExposeHeaders(p: Policy, origin: string, m: HeaderMap)
    ensures |p.exposedHeaders| > 0 ==>
              && HeaderExposeHeaders in Apply(m, ActualGrant(p, origin))
              && Apply(m, ActualGrant(p, origin))[HeaderExposeHeaders] == [Join(p.exposedHeaders, ", ")]
    ensures |p.exposedHeaders| == 0 ==> SameEntry(Apply(m, ActualGrant(p, origin)), m, HeaderExposeHeaders)
  {
    var g := ActualGrant(p, origin);
    if |p.exposedHeaders| > 0 {
      assert Untouched(g[2..], HeaderExposeHeaders);
      ApplyReplaceAt(m, g, 1);
    } else {
      assert Untouched(g, HeaderExposeHeaders);
      ApplyUntouched(m, g, HeaderExposeHeaders);
    }
  }

  /** The grant of an actual request sets Access-Control-Allow-Credentials exactly when credentials are on. */
  lemma ActualGrantCredentials(p: Policy, origin: string, m: HeaderMap)
    ensures p.allowCredentials ==>
              && HeaderAllowCredentials in Apply(m, ActualGrant(p, origin))
              && Apply(m, ActualGrant(p, origin))[HeaderAllowCredentials] == ["true"]
    ensures !p.allowCredentials ==> SameEntry(Apply(m, ActualGrant(p, origin)), m, HeaderAllowCredentials)
  {
    var g := ActualGrant(p, origin);
    if p.allowCredentials {
      assert g[|g| - 1] == Replace(HeaderAllowCredentials, "true");
      ApplyReplaceAt(m, g, |g| - 1);
    } else {
      assert Untouched(g, HeaderAllowCredentials);
      ApplyUntouched(m, g, HeaderAllowCredentials);
    }
  }

  // ---------------------------------------------------------------------
  // The preflight chain

  /** The grant writes of a preflight request. */
  function GrantOf(p: Policy, req: Request): seq<Write> {
    PreflightGrant(p, req.Get(HeaderOrigin), req.Get(HeaderRequestMethod), RequestedHeaders(req))
  }

  /** Every preflight write is to one of the preflight names, and only the Vary writes append. */
  lemma PreflightWritesNamed(p: Policy, req: Request)
    ensures forall i :: 0 <= i < |PreflightWrites(p, req)| ==>
              && PreflightWrites(p, req)[i].name in PreflightHeaderNames
              && (PreflightWrites(p, req)[i].Append? <==> PreflightWrites(p, req)[i].name == HeaderVary)
  {
    var origin, reqMethod, requested := req.Get(HeaderOrigin), req.Get(HeaderRequestMethod), RequestedHeaders(req);
    VaryGrantNamed(p, origin, reqMethod, requested);
    assert PreflightWrites(p, req) == [] || PreflightWrites(p, req) == PreflightVary
           || PreflightWrites(p, req) == PreflightVary + PreflightGrant(p, origin, reqMethod, requested);
  }

  /** The Vary entries followed by a grant write only preflight names, and append only to Vary. */
  lemma VaryGrantNamed(p: Policy, origin: string, reqMethod: string, requested: seq<string>)
    ensures forall i :: 0 <= i < |PreflightVary + PreflightGrant(p, origin, reqMethod, requested)| ==>
              && (PreflightVary + PreflightGrant(p, origin, reqMethod, requested))[i].name in PreflightHeaderNames
              && ((PreflightVary + PreflightGrant(p, origin, reqMethod, requested))[i].Append? <==>
                  (PreflightVary + PreflightGrant(p, origin, reqMethod, requested))[i].name == HeaderVary)
  {
    PreflightGrantNamed(p, origin, reqMethod, requested);
  }

  /** A preflight chain given a method other than OPTIONS writes nothing. */
  lemma PreflightNonOptions(p: Policy, req: Request, m: HeaderMap)
    requires req.httpMethod != MethodOptions
    ensures Apply(m, PreflightWrites(p, req)) == m
  {
  }

  /** Names outside the preflight names keep their entry, Access-Control-Expose-Headers among them. */
  lemma PreflightOtherNames(p: Policy, req: Request, m: HeaderMap, name: string)
    requires name !in PreflightHeaderNames
    ensures SameEntry(Apply(m, PreflightWrites(p, req)), m, name)
  {
    PreflightWritesNamed(p, req);
    ApplyUntouched(m, PreflightWrites(p, req), name);
  }

  /** The three Vary writes append their three values. */
  lemma PreflightVaryAppends(m: HeaderMap)
    ensures Values(Apply(m, PreflightVary), HeaderVary)
         == Values(m, HeaderVary) + [HeaderOrigin, HeaderRequestMethod, HeaderRequestHeaders]
  {
    ApplyThree(m, PreflightVary);
  }

  /** An OPTIONS request gets exactly the three Vary values appended, whatever the checks decide. */
  lemma PreflightVaryValues(p: Policy, req: Request, m: HeaderMap)
    requires req.httpMethod == MethodOptions
    ensures Values(Apply(m, PreflightWrites(p, req)), HeaderVary)
         == Values(m, HeaderVary) + [HeaderOrigin, HeaderRequestMethod, HeaderRequestHeaders]
  {
    PreflightVaryAppends(m);
    if PreflightAdmits(p, req) {
      PreflightGranted(p, req, m);
      PreflightGrantNamed(p, req.Get(HeaderOrigin), req.Get(HeaderRequestMethod), RequestedHeaders(req));
      assert Untouched(GrantOf(p, req), HeaderVary);
      ApplyUntouched(Apply(m, PreflightVary), GrantOf(p, req), HeaderVary);
    }
  }

  /** A preflight that fails a check writes nothing but the Vary values. */
  lemma PreflightRejected(p: Policy, req: Request, m: HeaderMap, name: string)
    requires req.httpMethod == MethodOptions && !PreflightAdmits(p, req)
    requires name != HeaderVary
    ensures SameEntry(Apply(m, PreflightWrites(p, req)), m, name)
  {
    ApplyUntouched(m, PreflightVary, name);
  }

  /** After a successful preflight the header map is the Vary values followed by the grant. */
  lemma PreflightGranted(p: Policy, req: Request, m: HeaderMap)
    requires req.httpMethod == MethodOptions && PreflightAdmits(p, req)
    ensures Apply(m, PreflightWrites(p, req)) == Apply(Apply(m, PreflightVary), GrantOf(p, req))
  {
    ApplyConcat(m, PreflightVary, GrantOf(p, req));
  }

  /** The Vary values touch no other name. */
  lemma PreflightVaryKeeps(m: HeaderMap, name: string)
    requires name != HeaderVary
    ensures SameEntry(Apply(m, PreflightVary), m, name)
  {
    ApplyUntouched(m, PreflightVary, name);
  }

  /**
   * A successful preflight sets Access-Control-Allow-Origin to "*" when
   * every origin is allowed and credentials are off, and otherwise to the
   * request's Origin as sent.
   */
  lemma PreflightAllowOrigin(p: Policy, req: Request, m: HeaderMap)
    requires req.httpMethod == MethodOptions && PreflightAdmits(p, req)
    ensures HeaderAllowOrigin in Apply(m, PreflightWrites(p, req))
    ensures p.allowedOriginsAll && !p.allowCredentials ==> Apply(m, PreflightWrites(p, req))[HeaderAllowOrigin] == ["*"]
    ensures !(p.allowedOriginsAll && !p.allowCredentials) ==>
              Apply(m, PreflightWrites(p, req))[HeaderAllowOrigin] == [req.Get(HeaderOrigin)]
  {
    PreflightGranted(p, req, m);
    GrantAllowOrigin(p, req.Get(HeaderOrigin), req.Get(HeaderRequestMethod), RequestedHeaders(req), Apply(m, PreflightVary));
  }

  /** A successful preflight sets Access-Control-Allow-Methods to the requested method, upper-cased. */
  lemma PreflightAllowMethods(p: Policy, req: Request, m: HeaderMap)
    requires req.httpMethod == MethodOptions && PreflightAdmits(p, req)
    ensures HeaderAllowMethods in Apply(m, PreflightWrites(p, req))
    ensures Apply(m, PreflightWrites(p, req))[HeaderAllowMethods] == [ToUpper(req.Get(HeaderRequestMethod))]
  {
    PreflightGranted(p, req, m);
    GrantAllowMethods(p, req.Get(HeaderOrigin), req.Get(HeaderRequestMethod), RequestedHeaders(req), Apply(m, PreflightVary));
  }

  /**
   * A successful preflight sets Access-Control-Allow-Headers to the parsed
   * requested headers joined with ", " when there are any, and leaves it
   * alone otherwise.
   */
  lemma PreflightAllowHeaders(p: Policy, req: Request, m: HeaderMap)
    requires req.httpMethod == MethodOptions && PreflightAdmits(p, req)
    ensures |RequestedHeaders(req)| > 0 ==>
              && HeaderAllowHeaders in Apply(m, PreflightWrites(p, req))
              && Apply(m, PreflightWrites(p, req))[HeaderAllowHeaders] == [Join(RequestedHeaders(req), ", ")]
    ensures |RequestedHeaders(req)| == 0 ==> SameEntry(Apply(m, PreflightWrites(p, req)), m, HeaderAllowHeaders)
  {
    PreflightGranted(p, req, m);
    PreflightVaryKeeps(m, HeaderAllowHeaders);
    GrantAllowHeaders(p, req.Get(HeaderOrigin), req.Get(HeaderRequestMethod), RequestedHeaders(req), Apply(m, PreflightVary));
  }

  /** A successful preflight sets Access-Control-Allow-Credentials to "true" exactly when credentials are on. */
  lemma PreflightCredentials(p: Policy, req: Request, m: HeaderMap)
    requires req.httpMethod == MethodOptions && PreflightAdmits(p, req)
    ensures p.allowCredentials ==>
              && HeaderAllowCredentials in Apply(m, PreflightWrites(p, req))
              && Apply(m, PreflightWrites(p, req))[HeaderAllowCredentials] == ["true"]
    ensures !p.allowCredentials ==> SameEntry(Apply(m, PreflightWrites(p, req)), m, HeaderAllowCredentials)
  {
    PreflightGranted(p, req, m);
    PreflightVaryKeeps(m, HeaderAllowCredentials);
    GrantCredentials(p, req.Get(HeaderOrigin), req.Get(HeaderRequestMethod), RequestedHeaders(req), Apply(m, PreflightVary));
  }

  /** A successful preflight sets Access-Control-Max-Age to the decimal max age exactly when it is positive. */
  lemma PreflightMaxAge(p: Policy, req: Request, m: HeaderMap)
    requires req.httpMethod == MethodOptions && PreflightAdmits(p, req)
    ensures p.maxAge > 0 ==>
              && HeaderMaxAge in Apply(m, PreflightWrites(p, req))
              && Apply(m, PreflightWrites(p, req))[HeaderMaxAge] == [Itoa(p.maxAge)]
    ensures p.maxAge <= 0 ==> SameEntry(Apply(m, PreflightWrites(p, req)), m, HeaderMaxAge)
  {
    PreflightGranted(p, req, m);
    PreflightVaryKeeps(m, HeaderMaxAge);
    GrantMaxAge(p, req.Get(HeaderOrigin), req.Get(HeaderRequestMethod), RequestedHeaders(req), Apply(m, PreflightVary));
  }

  /** The Access-Control-Allow-Headers value a preflight echoes parses back to the requested headers. */
  lemma PreflightAllowHeadersReparse(p: Policy, req: Request, m: HeaderMap)
    requires req.httpMethod == MethodOptions && PreflightAdmits(p, req)
    requires |RequestedHeaders(req)| > 0
    ensures HeaderAllowHeaders in Apply(m, PreflightWrites(p, req))
    ensures |Apply(m, PreflightWrites(p, req))[HeaderAllowHeaders]| == 1
    ensures ParseHeaderList(Apply(m, PreflightWrites(p, req))[HeaderAllowHeaders][0]) == RequestedHeaders(req)
  {
    PreflightAllowHeaders(p, req, m);
    ParseHeaderListStable(req.Get(HeaderRequestHeaders));
  }

  /** The Access-Control-Max-Age value a preflight writes reads back as the configured max age. */
  lemma PreflightMaxAgeReadsBack(p: Policy, req: Request, m: HeaderMap)
    requires req.httpMethod == MethodOptions && PreflightAdmits(p, req)
    requires p.maxAge > 0
    ensures HeaderMaxAge in Apply(m, PreflightWrites(p, req))
    ensures |Apply(m, PreflightWrites(p, req))[HeaderMaxAge]| == 1
    ensures forall i :: 0 <= i < |Apply(m, PreflightWrites(p, req))[HeaderMaxAge][0]| ==>
              IsDigit(Apply(m, PreflightWrites(p, req))[HeaderMaxAge][0][i])
    ensures DecimalValue(Apply(m, PreflightWrites(p, req))[HeaderMaxAge][0]) == p.maxAge
  {
    PreflightMaxAge(p, req, m);
    ItoaRoundTrip(p.maxAge);
  }

  // ---------------------------------------------------------------------
  // The actual-request chain

  /** Every actual-request write is to one of the actual-request names, and only the Vary write appends. */
  lemma ActualWritesNamed(p: Policy, req: Request)
    ensures forall i :: 0 <= i < |ActualWrites(p, req)| ==>
              && ActualWrites(p, req)[i].name in ActualHeaderNames
              && (ActualWrites(p, req)[i].Append? <==> ActualWrites(p, req)[i].name == HeaderVary)
  {
    ActualGrantNamed(p, req.Get(HeaderOrigin));
  }

  /** An actual-request chain given an OPTIONS request writes nothing, not even Vary. */
  lemma ActualOptions(p: Policy, req: Request, m: HeaderMap)
    requires req.httpMethod == MethodOptions
    ensures Apply(m, ActualWrites(p, req)) == m
  {
  }

  /** Names outside the actual-request names keep their entry, the preflight-only names among them. */
  lemma ActualOtherNames(p: Policy, req: Request, m: HeaderMap, name: string)
    requires name !in ActualHeaderNames
    ensures SameEntry(Apply(m, ActualWrites(p, req)), m, name)
  {
    ActualWritesNamed(p, req);
    ApplyUntouched(m, ActualWrites(p, req), name);
  }

  /** A request other than OPTIONS gets exactly one Vary value, Origin, appended. */
  lemma ActualVary(p: Policy, req: Request, m: HeaderMap)
    requires req.httpMethod != MethodOptions
    ensures Values(Apply(m, ActualWrites(p, req)), HeaderVary) == Values(m, HeaderVary) + [HeaderOrigin]
  {
    var v := [Append(HeaderVary, HeaderOrigin)];
    var g := if ActualAdmits(p, req) then ActualGrant(p, req.Get(HeaderOrigin)) else [];
    assert ActualWrites(p, req) == v + g;
    ApplyConcat(m, v, g);
    ActualGrantNamed(p, req.Get(HeaderOrigin));
    ApplyUntouched(Apply(m, v), g, HeaderVary);
  }

  /** A request that fails a check gets nothing but the Vary value. */
  lemma ActualRejected(p: Policy, req: Request, m: HeaderMap, name: string)
    requires req.httpMethod != MethodOptions && !ActualAdmits(p, req)
    requires name != HeaderVary
    ensures SameEntry(Apply(m, ActualWrites(p, req)), m, name)
  {
    ApplyUntouched(m, ActualWrites(p, req), name);
  }

  /** The Vary value of an actual request. */
  const ActualVaryWrite: seq<Write> := [Append(HeaderVary, HeaderOrigin)]

  /** After a successful actual request the header map is the Vary value followed by the grant. */
  lemma ActualGranted(p: Policy, req: Request, m: HeaderMap)
    requires req.httpMethod != MethodOptions && ActualAdmits(p, req)
    ensures Apply(m, ActualWrites(p, req)) == Apply(Apply(m, ActualVaryWrite), ActualGrant(p, req.Get(HeaderOrigin)))
  {
    ApplyConcat(m, ActualVaryWrite, ActualGrant(p, req.Get(HeaderOrigin)));
  }

  /** The Vary value touches no other name. */
  lemma ActualVaryKeeps(m: HeaderMap, name: string)
    requires name != HeaderVary
    ensures SameEntry(Apply(m, ActualVaryWrite), m, name)
  {
    ApplyUntouched(m, ActualVaryWrite, name);
  }

  /** A successful actual request follows the same "*"-or-echo rule for Access-Control-Allow-Origin. */
  lemma ActualAllowOrigin(p: Policy, req: Request, m: HeaderMap)
    requires req.httpMethod != MethodOptions && ActualAdmits(p, req)
    ensures HeaderAllowOrigin in Apply(m, ActualWrites(p, req))
    ensures p.allowedOriginsAll && !p.allowCredentials ==> Apply(m, ActualWrites(p, req))[HeaderAllowOrigin] == ["*"]
    ensures !(p.allowedOriginsAll && !p.allowCredentials) ==>
              Apply(m, ActualWrites(p, req))[HeaderAllowOrigin] == [req.Get(HeaderOrigin)]
  {
    ActualGranted(p, req, m);
    ActualGrantAllowOrigin(p, req.Get(HeaderOrigin), Apply(m, ActualVaryWrite));
  }

  /**
   * A successful actual request sets Access-Control-Expose-Headers to the
   * exposed headers joined with ", " when there are any, and leaves it
   * alone otherwise.
   */
  lemma ActualExposeHeaders(p: Policy, req: Request, m: HeaderMap)
    requires req.httpMethod != MethodOptions && ActualAdmits(p, req)
    ensures |p.exposedHeaders| > 0 ==>
              && HeaderExposeHeaders in Apply(m, ActualWrites(p, req))
              && Apply(m, ActualWrites(p, req))[HeaderExposeHeaders] == [Join(p.exposedHeaders, ", ")]
    ensures |p.exposedHeaders| == 0 ==> SameEntry(Apply(m, ActualWrites(p, req)), m, HeaderExposeHeaders)
  {
    ActualGranted(p, req, m);
    ActualVaryKeeps(m, HeaderExposeHeaders);
    ActualGrantExposeHeaders(p, req.Get(HeaderOrigin), Apply(m, ActualVaryWrite));
  }

  /** A successful actual request sets Access-Control-Allow-Credentials to "true" exactly when credentials are on. */
  lemma ActualCredentials(p: Policy, req: Request, m: HeaderMap)
    requires req.httpMethod != MethodOptions && ActualAdmits(p, req)
    ensures p.allowCredentials ==>
              && HeaderAllowCredentials in Apply(m, ActualWrites(p, req))
              && Apply(m, ActualWrites(p, req))[HeaderAllowCredentials] == ["true"]
    ensures !p.allowCredentials ==> SameEntry(Apply(m, ActualWrites(p, req)), m, HeaderAllowCredentials)
  {
    ActualGranted(p, req, m);
    ActualVaryKeeps(m, HeaderAllowCredentials);
    ActualGrantCredentials(p, req.Get(HeaderOrigin), Apply(m, ActualVaryWrite));
  }

  // ---------------------------------------------------------------------
  // Routing

  /** An OPTIONS request without Access-Control-Request-Method is not a preflight, and no header is written. */
  lemma NonPreflightOptions(p: Policy, req: Request, m: HeaderMap)
    requires req.httpMethod == MethodOptions && req.Get(HeaderRequestMethod) == ""
    ensures !IsPreflight(req) && CallsDownstream(p, req)
    ensures Apply(m, DispatchWrites(p, req)) == m
  {
  }
}

# CORS middleware for net/http, modelled in Dafny

This project models the policy engine of the `cors` package, a middleware for
Go's `net/http` that implements Cross-Origin Resource Sharing. Handlers are
built from an `Options` value:

- `New` compiles the options into a `Cors` handler. It builds the allow-all
  flags, the lower-cased exact origins, the `*` wildcard origins, the
  canonical allowed headers (with `Origin` added, and no list at all when
  `*` is among them) and the upper-cased allowed methods.
- `Default` and `AllowAll` are two preset handlers.

Each request is routed by the three adapters (`Handler`, `HandlerFunc`,
`ServeHTTP`):

- An `OPTIONS` request with a non-empty `Access-Control-Request-Method` is a
  preflight and goes to `handlePreflight`. It appends the three `Vary` values,
  then checks the origin, the requested method and the requested headers in
  that order. Only if all three pass does it set
  `Access-Control-Allow-Origin`, `-Allow-Methods`, `-Allow-Headers`,
  `-Allow-Credentials` and `-Max-Age`.
- Every other request goes to `handleActualRequest`. An `OPTIONS` request
  gets no header from it. Any other method gets `Vary: Origin`; then the
  origin and the method are checked, and only if both pass does it set
  `Access-Control-Allow-Origin`, `-Expose-Headers` and `-Allow-Credentials`.

How the model is built:

- A response's header map is a `map<string, seq<string>>`.
- Each header write (`Add` or `Set`) is a `Write` value.
- A chain of writes is folded by `Http.Apply`.
- The imperative code is the class `Cors.Cors`:
  - its fields are the handler's fields;
  - its constructor `New` runs the origin and header loops of the source;
  - its `IsOriginAllowed`, `IsMethodAllowed` and `AreHeadersAllowed` methods run
    the source's loops;
  - its handler methods modify a `Response` object in place.
- Each method is proved against a specification function in `CorsPolicy`:
  `Compile`, `OriginAllowed`, `MethodAllowed`, `HeadersAllowed`,
  `PreflightWrites`, `ActualWrites` and `DispatchWrites`.
- `CorsProperties` proves what those functions mean:
  - which origins, methods and headers are admitted;
  - that a rejected request gets only the `Vary` values;
  - the value of each header a granted request gets;
  - that no other header name is touched;
  - that the echoed allowed headers parse back to the requested list;
  - that the max age reads back as its number.
- `CorsExamples` and `UtilsExamples` state the repository's test tables as
  lemmas, with the complete set of inspected headers for each case. These
  lemmas are derived from the general lemmas.

Files:

- `Text.dfy`: the string helpers the source calls (`strings.ToLower`,
  `strings.ToUpper`, `strings.IndexByte`, `strings.Join`, `strconv.Itoa`),
  restricted to ASCII, and the splitting on ',' and trimming of ASCII white
  space with which `parseHeaderList` is modelled.
- `Http.dfy`: header-name canonicalisation, header maps and their writes, the
  `Header`, `Response` and `Request` objects.
- `Utils.dfy`: the wildcard matcher, `convert` and `parseHeaderList`.
- `CorsPolicy.dfy`: `Options`, the compiled policy and the specification
  functions.
- `Cors.dfy`: the handler class and the preset constructors.
- `CorsProperties.dfy`, `CorsExamples.dfy`, `UtilsExamples.dfy`: the lemmas.

`utils.go` is not part of this model. `wildcard.match`, `convert` and
`parseHeaderList` are modelled from their call sites in `cors.go` and from
the cases of `utils_test.go`.

## Model

| member | source | states |
|---|---|---|
| Text.ToLower | cors.go:83 | strings.ToLower keeps the length and lower-cases each ASCII letter of the origin, position by position |
| Text.ToUpper | cors.go:306 | strings.ToUpper keeps the length and upper-cases each ASCII letter of the method, position by position |
| Text.ToLowerIdempotent | cors.go:288 | lower-casing an origin that is already lower-cased changes nothing, so comparing against the lower-cased configured origins is consistent |
| Text.ToUpperIdempotent | cors.go:306 | upper-casing twice is upper-casing once |
| Text.ToLowerFixed | cors.go:83 | a string is its own lower-case form exactly when it holds no upper-case letter |
| Text.ToLowerConcat | cors.go:83 | lower-casing distributes over concatenation |
| Text.ToUpperConcat | cors.go:114 | upper-casing distributes over concatenation |
| Text.ToLowerKeepsNonLetters | cors.go:84-89 | lower-casing neither adds nor removes a non-letter such as '*', so the '*' test on the lower-cased origin sees the configured '*' |
| Text.IndexByte | cors.go:89 | strings.IndexByte gives -1 exactly when the character is absent; otherwise the index of its first occurrence |
| Text.Split | utils_test.go:23-35 | splitting on a separator, as parseHeaderList is modelled to do, gives at least one piece, and no piece holds the separator |
| Text.JoinPrepend | cors.go:226 | joining a list whose head is x + y puts x in front of the join |
| Text.JoinSplit | utils_test.go:23-27 | joining the pieces of a split with the separator restores the string |
| Text.SplitWhole | utils_test.go:29-35 | a string without the separator splits into itself alone |
| Text.Join | cors.go:226 | strings.Join of no parts is empty, of one part is that part, and otherwise starts with the first part |
| Text.SplitJoin | cors.go:267 | splitting the join of separator-free parts on the separator gives the parts back, so the joined exposed headers can be split apart again |
| Text.SplitAfter | utils_test.go:23-27 | a separator after a separator-free prefix cuts off exactly that prefix |
| Text.LeadingEnd | utils_test.go:23-27 | the scan from an index stops at the first character that is not white space, and everything it passed is white space |
| Text.TrailingStart | utils_test.go:23-27 | the backward scan stops after the last character that is not white space, and everything it passed is white space |
| Text.TrimSpace | utils_test.go:23-27 | trimming ASCII white space, as parseHeaderList is modelled to do, gives a trimmed infix of the input with white space on both sides of it |
| Text.TrimSpaceLead | utils_test.go:23-27 | trimming white space followed by a trimmed string gives that string |
| Text.LeadingEndAt | utils_test.go:23-27 | the forward white-space scan ends exactly at the first character that is not white space |
| Text.Itoa | cors.go:232 | strconv.Itoa of a non-negative number is a non-empty string of decimal digits without a leading zero |
| Text.ItoaRoundTrip | cors.go:232 | the decimal digits written for the max age read back as the same number |
| Http.CanonicalFrom | cors.go:65 | canonicalisation keeps the length |
| Http.CanonicalFromAt | cors.go:65 | each character is upper-cased at a segment start and lower-cased elsewhere |
| Http.CanonicalHeaderKey | cors.go:101 | http.CanonicalHeaderKey keeps the length of the name |
| Http.CanonicalAt | cors.go:323 | a canonical name has an upper-case letter after every '-' and at the start, and lower-case letters elsewhere |
| Http.CanonicalFromConcat | cors.go:101 | canonicalising a concatenation canonicalises the second part from the state the first leaves |
| Http.CanonicalIs | cors.go:323 | a name that is upper-case exactly at its segment starts is the canonical form of the given string |
| Http.CanonicalShape | cors.go:323 | a name is canonical exactly when each character is its own segment-start or segment-interior form |
| Http.CanonicalIdempotent | cors.go:323 | canonicalising a canonical name changes nothing, so comparing canonical requested names with canonical allowed names is stable |
| Http.CanonicalKeepsNonLetters | cors.go:101-108 | canonicalisation neither adds nor removes a non-letter such as ',' or '*' |
| Http.CanonicalKeepsTrimmed | cors.go:212 | canonicalising a trimmed name leaves it trimmed |
| Http.Step | cors.go:193-233 | Header.Add appends a value to the name's list and Header.Set replaces the list with one value; no other name changes |
| Http.ApplyConcat | cors.go:193-233 | performing two chains of writes in turn is performing their concatenation |
| Http.ApplyUntouched | cors.go:193-233 | a name no write of the chain touches keeps its entry |
| Http.ApplyAppends | cors.go:193-195 | a chain of appends adds its values, in order, to the name's list |
| Http.ApplySnoc | cors.go:193-233 | performing a chain and then one more write is one step after the chain |
| Http.ApplySnocWhen | cors.go:225-233 | a conditional write after a chain is one step when the condition holds and nothing otherwise |
| Http.ApplyPair | cors.go:193-194 | two writes are two steps |
| Http.ApplyThree | cors.go:193-195 | three writes are three steps |
| Http.UntouchedConcat | cors.go:193-233 | a name is untouched by a concatenation when it is untouched by both parts |
| Http.ApplyReplaceAt | cors.go:218-233 | a Set that no later write to the same name follows leaves exactly its value |
| Http.ApplyWhen | cors.go:225-233 | a conditional write is the conditional step |
| Http.Request.Get | cors.go:186 | Header.Get gives the first value under the name, or the empty string when the name is absent or has no value |
| Http.Header.constructor | cors.go:185 | a fresh header map is empty |
| Http.Header.Add | cors.go:193-195 | the entry list of the name gets the value appended and nothing else changes |
| Http.Header.Set | cors.go:219 | the entry list of the name becomes the single value and nothing else changes |
| Http.Response.constructor | cors.go:185 | a fresh response has an empty header map and no status |
| Http.Response.WriteHeader | cors.go:145 | the status is the code written and the headers are unchanged |
| Utils.MatchAnyMiddle | utils_test.go:10-15 | a wildcard matches its prefix and suffix with anything in between |
| Utils.Wildcard.Match | cors.go:295 | wildcard.match holds exactly when the origin is long enough for both anchors and is the prefix, some middle and the suffix |
| Utils.SplitWildcard | cors.go:89-91 | the wildcard New builds splits the origin around its first '*', so the prefix holds no '*' |
| Utils.SplitWildcardAt | cors.go:89-91 | the split of prefix + "*" + suffix is that prefix and suffix when the prefix holds no '*' |
| Utils.Convert | cors.go:65 | convert keeps the length and applies the function to each element in order |
| Utils.ConvertCons | cors.go:101 | converting a non-empty list converts its head and then its tail |
| Utils.ConvertMembers | cors.go:101 | a name is in the converted list exactly when it is the image of some element |
| Utils.ParsePiecesMembers | cors.go:212 | a name is parsed exactly when some non-blank piece canonicalises to it, and there are no more names than pieces |
| Utils.ParsePiecesTokens | cors.go:212 | every parsed name is non-empty, comma-free, trimmed and canonical |
| Utils.ParseHeaderList | cors.go:212 | parseHeaderList returns only non-empty, comma-free, trimmed canonical names, no more of them than comma-separated pieces, and a name exactly when some non-blank piece canonicalises to it |
| Utils.ParsePiecesCons | cors.go:212 | the first piece contributes its canonical name when not blank, and the rest are parsed after it |
| Utils.SpacesHaveNoComma | utils_test.go:29-35 | white space holds no comma |
| Utils.BlankTrims | utils_test.go:29-35 | white space trims to the empty string |
| Utils.ParseSingleBlank | utils_test.go:29-35 | a single piece that trims to nothing gives no names |
| Utils.ParseBlank | utils_test.go:29-35 | a blank value parses to no names |
| Utils.LeadItemPiece | utils_test.go:23-27 | a list item after white space is one non-blank piece whose name is the item's canonical form |
| Utils.ParseLeadItem | utils_test.go:23-27 | one list item after white space parses to its canonical form |
| Utils.SplitJoinHead | utils_test.go:23-27 | the first item of a list joined with ", " splits off at its comma |
| Utils.ParseJoinAfter | utils_test.go:23-27 | items joined with ", " parse to their canonical forms, in order |
| Utils.ConvertCanonicalNames | cors.go:323 | canonicalising canonical names changes nothing |
| Utils.ParseJoin | cors.go:226 | joining header names with ", " and parsing the result gives the names back |
| Utils.ParseHeaderListStable | cors.go:212-226 | parsing the joined result of a parse gives the same list, so the echoed Access-Control-Allow-Headers value reads as the requested headers |
| Cors.Cors.New | cors.go:63-118 | the constructed handler's fields are the compiled policy of the options |
| Cors.Cors.CompileOriginList | cors.go:75-96 | the origin loop gives allow-all for an empty list without an origin function, stops at a "*" entry, and sorts the other lower-cased entries into exact origins and wildcards split at the first '*' |
| Cors.Cors.CompileHeaderList | cors.go:98-109 | the allowed headers are the defaults for an empty list, allow-all with no list once an entry is "*", and otherwise the canonical entries followed by Origin |
| Cors.Cors.IsOriginAllowed | cors.go:281-300 | the loop answers what the origin predicate says: the origin function alone when set, then allow-all, then the lower-cased origin among the exact origins or matched by a wildcard |
| Cors.Cors.IsMethodAllowed | cors.go:302-316 | the loop answers false for an empty method list, true for OPTIONS, and otherwise whether the upper-cased method is listed |
| Cors.Cors.AreHeadersAllowed | cors.go:318-335 | the nested loops answer true under allow-all or for an empty request, and otherwise whether every canonicalised requested header is allowed |
| Cors.Cors.HandlePreflight | cors.go:184-235 | the response headers become the old headers with the preflight chain performed: nothing for a method other than OPTIONS, the three Vary appends, and the grant only after the origin, method and header checks pass |
| Cors.Cors.WritePreflightGrant | cors.go:218-233 | the grant writes are performed in the source's order, each optional one only under its condition |
| Cors.Cors.HandleActualRequest | cors.go:237-273 | the response headers become the old headers with the actual-request chain performed: nothing for OPTIONS, the Vary append, and the grant only after the origin and method checks pass |
| Cors.Cors.WriteActualGrant | cors.go:260-271 | the grant writes of an actual request are performed in the source's order |
| CorsPolicy.IsPreflight | cors.go:138 | a request is a preflight exactly when its method is OPTIONS and its first Access-Control-Request-Method value is present and non-empty |
| Cors.Cors.Handler | cors.go:136-153 | a preflight runs the preflight chain and then calls the downstream handler under passthrough or writes status 200 otherwise; every other request runs the actual-request chain and calls the downstream handler |
| Cors.Cors.HandlerFunc | cors.go:156-164 | the same routing and writes as Handler, with no downstream handler and no status |
| Cors.Cors.ServeHTTP | cors.go:167-182 | the same routing and writes as Handler, with next in place of the downstream handler |
| Cors.Default | cors.go:121-123 | a fresh handler compiled from the zero options |
| Cors.AllowAll | cors.go:126-133 | a fresh handler compiled from the allow-all options (origins and headers "*", six methods, credentials) |
| Cors.AdaptersAgree | cors.go:136-182 | the three adapters write the same headers for the same request on fresh responses |
| CorsProperties.StarEntryAdmitsAll | cors.go:84-88 | the configured origin "*" admits every origin |
| CorsProperties.ScanOriginsAll | cors.go:84-88 | the origin loop sets allow-all exactly when some lower-cased entry is "*", and then keeps no exact origin and no wildcard |
| CorsProperties.ScanOriginsCount | cors.go:82-95 | without a "*" entry, every entry lands in exactly one of the exact and wildcard lists |
| CorsProperties.ScanOriginsExact | cors.go:92-93 | without a "*" entry, the exact origins are exactly the lower-cased entries without '*' |
| CorsProperties.ScanOriginsWild | cors.go:89-91 | without a "*" entry, the wildcards are exactly the lower-cased entries with '*', split at the first one |
| CorsProperties.ScanAdmits | cors.go:82-95 | after the origin loop, an origin is admitted exactly when some scanned entry or some kept entry admits it |
| CorsProperties.CompiledOriginAllowed | cors.go:75-96 | without an origin function, an origin is admitted exactly when the list is empty or some configured entry, lower-cased, is "*", equals the lower-cased origin, or is a wildcard matching it |
| CorsProperties.CompiledOriginFunc | cors.go:282-284 | with an origin function, its answer alone decides admission, whatever origins are configured |
| CorsProperties.OriginFuncAllowOrigin | cors.go:75-96 | beside an origin function, allow-all is set exactly when a lower-cased configured origin is "*", so Access-Control-Allow-Origin is "*" when that holds and credentials are off, and the origin otherwise |
| CorsProperties.StarOptionsAdmit | cors.go:84-106 | "*" among both the origins and the headers, without an origin function, admits every origin and every header list; the origin is echoed with credentials and "*" is sent without |
| CorsProperties.AllowAllAdmits | cors.go:126-133 | AllowAll admits every origin and every header list, allows credentials and so echoes the origin |
| CorsProperties.DefaultAdmits | cors.go:121-123 | Default admits every origin with the value "*", allows no credentials and keeps the default method and header lists |
| CorsProperties.OriginIsCanonical | cors.go:101 | "Origin" is canonical, so the appended Origin is always allowed |
| CorsProperties.CompiledHeadersAllowed | cors.go:98-109 | a header list is admitted exactly when no headers were configured and every name is a default, or some entry is "*", or every name is Origin or a configured name, compared canonically |
| CorsProperties.HeadersAllOrNothing | cors.go:318-335 | a list of headers is admitted exactly when both of its parts are |
| CorsProperties.CompiledMethodsNonEmpty | cors.go:111-115 | New never leaves the method list empty |
| CorsProperties.CompiledMethodAllowed | cors.go:111-115 | a method is admitted exactly when it upper-cases to OPTIONS or is among the upper-cased configured methods (the defaults GET, POST and HEAD when none are configured) |
| CorsProperties.EmptyMethodsRejectAll | cors.go:303-305 | an empty method list rejects every method, OPTIONS included |
| CorsProperties.ApplyOptional | cors.go:225-233 | the optional grant writes are the optional steps |
| CorsProperties.GrantSteps | cors.go:218-233 | the preflight grant is the allow-origin and allow-methods replacements followed by the optional steps |
| CorsProperties.PreflightGrantNamed | cors.go:218-233 | every preflight grant write replaces, and none writes Vary or Access-Control-Expose-Headers |
| CorsProperties.GrantAllowOrigin | cors.go:218-222 | the grant sets Access-Control-Allow-Origin to "*" under allow-all without credentials, and to the origin otherwise |
| CorsProperties.GrantAllowMethods | cors.go:224 | the grant sets Access-Control-Allow-Methods to the upper-cased requested method |
| CorsProperties.GrantAllowHeaders | cors.go:225-227 | the grant sets Access-Control-Allow-Headers to the joined list exactly when headers were requested |
| CorsProperties.GrantCredentials | cors.go:228-230 | the grant sets Access-Control-Allow-Credentials to "true" exactly when credentials are on |
| CorsProperties.GrantMaxAge | cors.go:231-233 | the grant sets Access-Control-Max-Age to the decimal max age exactly when it is positive |
| CorsProperties.ActualGrantNamed | cors.go:260-271 | every grant write of an actual request replaces, and none writes Vary or a preflight-only header |
| CorsProperties.ActualGrantAllowOrigin | cors.go:260-264 | the actual grant sets Access-Control-Allow-Origin by the "*"-or-echo rule |
| CorsProperties.ActualGrantExposeHeaders | cors.go:266-268 | the actual grant sets Access-Control-Expose-Headers to the joined exposed headers exactly when there are some |
| CorsProperties.ActualGrantCredentials | cors.go:269-271 | the actual grant sets Access-Control-Allow-Credentials exactly when credentials are on |
| CorsProperties.VaryGrantNamed | cors.go:193-233 | the three Vary appends followed by a grant write only preflight names, and append only to Vary |
| CorsProperties.PreflightWritesNamed | cors.go:184-235 | every preflight write is to a preflight header name, and only the Vary writes append |
| CorsProperties.PreflightNonOptions | cors.go:188-191 | a preflight chain given a method other than OPTIONS writes nothing |
| CorsProperties.PreflightOtherNames | cors.go:184-235 | names outside the preflight header names keep their entries |
| CorsProperties.PreflightVaryAppends | cors.go:193-195 | the three Vary writes append Origin, Access-Control-Request-Method and Access-Control-Request-Headers, in that order |
| CorsProperties.PreflightVaryValues | cors.go:193-216 | an OPTIONS request gets exactly the three Vary values appended, whatever the checks decide |
| CorsProperties.PreflightRejected | cors.go:197-216 | a preflight that fails the origin, method or header check writes nothing but Vary |
| CorsProperties.PreflightGranted | cors.go:193-233 | a preflight that passes every check gets the Vary values followed by the grant |
| CorsProperties.PreflightVaryKeeps | cors.go:193-195 | the Vary writes touch no other name |
| CorsProperties.PreflightAllowOrigin | cors.go:218-222 | a successful preflight gets Access-Control-Allow-Origin "*" under allow-all without credentials and the request's origin otherwise |
| CorsProperties.PreflightAllowMethods | cors.go:206-224 | a successful preflight gets the upper-cased Access-Control-Request-Method as Access-Control-Allow-Methods |
| CorsProperties.PreflightAllowHeaders | cors.go:212-227 | a successful preflight gets the parsed requested headers joined with ", " exactly when there are some |
| CorsProperties.PreflightCredentials | cors.go:228-230 | a successful preflight gets Access-Control-Allow-Credentials "true" exactly when credentials are on |
| CorsProperties.PreflightMaxAge | cors.go:231-233 | a successful preflight gets Access-Control-Max-Age exactly when the max age is positive |
| CorsProperties.PreflightAllowHeadersReparse | cors.go:212-227 | the echoed Access-Control-Allow-Headers value is one string that parses back to the requested headers |
| CorsProperties.PreflightMaxAgeReadsBack | cors.go:231-233 | the Access-Control-Max-Age value is one string of digits that reads back as the max age |
| CorsProperties.ActualWritesNamed | cors.go:237-273 | every actual-request write is to an actual-request header name, and only the Vary write appends |
| CorsProperties.ActualOptions | cors.go:241-244 | an OPTIONS request reaching the actual-request chain gets no header, not even Vary |
| CorsProperties.ActualOtherNames | cors.go:237-273 | names outside the actual-request header names keep their entries |
| CorsProperties.ActualVary | cors.go:246-259 | a request other than OPTIONS gets exactly one Vary value, Origin, whatever the checks decide |
| CorsProperties.ActualRejected | cors.go:247-259 | an actual request that fails the origin or method check gets nothing but Vary |
| CorsProperties.ActualGranted | cors.go:246-271 | a successful actual request gets the Vary value followed by the grant |
| CorsProperties.ActualVaryKeeps | cors.go:246 | the Vary write touches no other name |
| CorsProperties.ActualAllowOrigin | cors.go:260-264 | a successful actual request gets Access-Control-Allow-Origin by the "*"-or-echo rule |
| CorsProperties.ActualExposeHeaders | cors.go:266-268 | a successful actual request gets the joined exposed headers exactly when there are some |
| CorsProperties.ActualCredentials | cors.go:269-271 | a successful actual request gets Access-Control-Allow-Credentials "true" exactly when credentials are on |
| CorsProperties.NonPreflightOptions | cors.go:138-151 | an OPTIONS request without Access-Control-Request-Method is routed as an actual request, reaches the downstream handler and gets no header |
| CorsExamples.PreflightVaryJoined | cors_test.go:17-33 | the three preflight Vary values joined with ", " are the expected Vary text |
| CorsExamples.PreflightVaryShown | cors_test.go:169-187 | any OPTIONS request shows the three Vary values on a fresh response |
| CorsExamples.PreflightShowsNoExpose | cors_test.go:17-33 | a preflight never shows Access-Control-Expose-Headers |
| CorsExamples.ActualShowsNone | cors_test.go:17-33 | an actual request never shows the preflight-only headers |
| CorsExamples.PreflightShows | cors_test.go:17-33 | a granted preflight on a fresh response shows exactly its grant and the Vary values |
| CorsExamples.PreflightRejectedShows | cors_test.go:17-33 | a rejected preflight shows only the Vary values |
| CorsExamples.ActualShows | cors_test.go:17-33 | a granted actual request shows exactly its grant and Vary: Origin |
| CorsExamples.ActualRejectedShows | cors_test.go:17-33 | a rejected actual request shows only Vary: Origin |
| CorsExamples.ActualOutcome | cors_test.go:372-399 | through the adapters, an admitted non-OPTIONS request shows its actual grant |
| CorsExamples.ActualRejectedOutcome | cors_test.go:372-399 | through the adapters, a rejected non-OPTIONS request shows only Vary: Origin |
| CorsExamples.PreflightOutcome | cors_test.go:372-399 | through the adapters, an admitted preflight shows its grant |
| CorsExamples.PreflightRejectedOutcome | cors_test.go:372-399 | through the adapters, a rejected preflight shows only the Vary values |
| CorsExamples.ExactOrigin | cors.go:92-93 | one configured origin without '*' becomes the one exact origin, lower-cased |
| CorsExamples.SingleOriginPolicy | cors.go:281-300 | with one configured origin and no origin function, exactly the origins equal to it ignoring case are admitted |
| CorsExamples.LowerAlready | cors.go:83 | lower-casing a string without upper-case letters changes nothing |
| CorsExamples.StarOrigin | cors.go:84-88 | the configured origin "*" compiles to allow-all |
| CorsExamples.LowerDiffers | cors.go:288-293 | strings that differ at a position after lower-casing lower-case differently |
| CorsExamples.PreflightFromReads | cors_test.go:169-187 | a preflight header map reads back its origin and method and has no requested headers |
| CorsExamples.NoRequestedHeaders | cors_test.go:169-187 | a preflight without Access-Control-Request-Headers parses no requested header |
| CorsExamples.NoConfig | cors_test.go:43-53 | a GET without Origin under the zero options shows only Vary: Origin |
| CorsExamples.MatchAllOrigin | cors_test.go:54-67 | with origin "*", a GET from any origin shows Access-Control-Allow-Origin "*" |
| CorsExamples.MatchAllOriginWithCredentials | cors_test.go:68-83 | with origin "*" and credentials, the origin is echoed and credentials are "true" |
| CorsExamples.ListedOriginEchoed | cors_test.go:84-97 | a GET from the one configured origin shows that origin |
| CorsExamples.AllowedOrigin | cors_test.go:84-97 | http://foobar.com, configured, is echoed |
| CorsExamples.UnlistedOriginRejected | cors_test.go:112-124 | a GET from an origin differing from the configured one shows only Vary |
| CorsExamples.DisallowedOrigin | cors_test.go:112-124 | http://barbaz.com is refused when http://foobar.com is configured |
| CorsExamples.WildcardScan | cors.go:84-91 | a configured pattern with one '*' compiles to its one wildcard |
| CorsExamples.WildcardPolicy | cors.go:294-298 | with one wildcard pattern, exactly the lower-cased origins it matches are admitted |
| CorsExamples.WildcardOriginEchoed | cors_test.go:98-111 | a GET from an origin the wildcard matches shows that origin |
| CorsExamples.WildcardOriginRejected | cors_test.go:125-137 | a GET from an origin the wildcard does not match shows only Vary |
| CorsExamples.BarPatternSplits | cors_test.go:98-111 | the pattern http://\*.bar.com is its prefix, '\*' and its suffix |
| CorsExamples.BarPatternLower | cors_test.go:98-111 | the pattern is already lower-case |
| CorsExamples.FooDotBarSpelled | cors_test.go:98-111 | http://foo.bar.com is the pattern's prefix, foo and the pattern's suffix |
| CorsExamples.FooDotBarLower | cors_test.go:98-111 | http://foo.bar.com is already lower-case |
| CorsExamples.FooDotBarMatches | cors_test.go:98-111 | http://foo.bar.com matches the pattern |
| CorsExamples.FooDotBazMisses | cors_test.go:125-137 | http://foo.baz.com does not match the pattern |
| CorsExamples.WildcardOrigin | cors_test.go:98-111 | http://foo.bar.com is echoed under http://\*.bar.com |
| CorsExamples.DisallowedWildcardOrigin | cors_test.go:125-137 | http://foo.baz.com is refused under http://\*.bar.com |
| CorsExamples.AllowedOriginFuncMatch | cors_test.go:138-153 | an origin function that accepts the origin has it echoed |
| CorsExamples.AllowedOriginFuncNotMatch | cors_test.go:154-168 | an origin function that refuses the origin leaves only Vary |
| CorsExamples.SingleOriginAdmits | cors.go:197-216 | a preflight from the one configured origin with an allowed method and allowed headers passes every check |
| CorsExamples.SingleOriginPreflight | cors_test.go:169-257 | such a preflight shows the Vary values, the origin, the upper-cased method, the echoed headers when there are some, credentials and the max age when positive |
| CorsExamples.GrantedWithMaxAge | cors_test.go:169-187 | a GET preflight under a positive max age shows it |
| CorsExamples.MaxAge | cors_test.go:169-187 | max age 10 shows Access-Control-Max-Age "10" |
| CorsExamples.ListedMethodGranted | cors_test.go:188-204 | a preflight for a configured method shows it upper-cased |
| CorsExamples.AllowedMethod | cors_test.go:188-204 | PUT is granted when PUT and DELETE are configured |
| CorsExamples.UnlistedMethodRejected | cors_test.go:205-219 | a preflight for a method not configured shows only the Vary values |
| CorsExamples.DisallowedMethod | cors_test.go:205-219 | PATCH is refused when PUT and DELETE are configured |
| CorsExamples.CredentialedPreflight | cors_test.go:327-344 | a preflight under credentials shows "true" |
| CorsExamples.AllowedCredentials | cors_test.go:327-344 | the credentials case shows Access-Control-Allow-Credentials "true" |
| CorsExamples.AnyOriginPreflight | cors_test.go:345-360 | under allow-all origins without credentials, a preflight shows "\*" and the method |
| CorsExamples.OptionPassthrough | cors_test.go:345-360 | passthrough does not change the preflight headers |
| CorsExamples.OptionsWithoutRequestMethod | cors_test.go:361-369 | an OPTIONS request without Access-Control-Request-Method is not a preflight |
| CorsExamples.NonPreflightOptionsCase | cors_test.go:361-369 | such a request shows no header at all |
| CorsExamples.PreflightWithReads | cors_test.go:220-238 | a preflight header map with requested headers reads back all three values |
| CorsExamples.ListedOriginPreflight | cors_test.go:220-310 | a GET preflight from the configured origin with allowed requested headers shows the canonical headers echoed |
| CorsExamples.HeadersRefused | cors_test.go:277-292 | a preflight whose requested headers are not all allowed shows only the Vary values |
| CorsExamples.FooBarPlain | cors_test.go:84-97 | http://foobar.com is non-empty, has no '\*' and is lower-case |
| CorsExamples.XHeader1Canonical | cors_test.go:220-238 | X-Header-1 is canonical |
| CorsExamples.XHeader1Upper | cors_test.go:220-238 | X-HEADER-1 canonicalises to X-Header-1 |
| CorsExamples.XHeader2Canonical | cors_test.go:220-238 | X-Header-2 is canonical |
| CorsExamples.XHeader2Lower | cors_test.go:220-238 | x-header-2 canonicalises to X-Header-2 |
| CorsExamples.XHeader3Canonical | cors_test.go:277-292 | X-Header-3 is canonical |
| CorsExamples.OriginCanonical | cors.go:101 | Origin canonicalises to itself |
| CorsExamples.OriginLower | cors_test.go:293-310 | origin canonicalises to Origin |
| CorsExamples.RequestedWithDefault | cors.go:99 | X-Requested-With and Origin are among the default allowed headers |
| CorsExamples.RequestedWithCanonical | cors_test.go:239-257 | X-Requested-With is canonical |
| CorsExamples.RequestedWithItem | cors_test.go:239-257 | X-Requested-With is one list item |
| CorsExamples.ConfiguredHeadersNoStar | cors_test.go:220-238 | the configured headers hold no "\*" |
| CorsExamples.ConfiguredHeadersConvert | cors_test.go:220-238 | the configured headers canonicalise to X-Header-1 and X-Header-2 |
| CorsExamples.ConfiguredHeadersCompile | cors.go:101 | the configured headers compile to X-Header-1, X-Header-2 and Origin |
| CorsExamples.ParseTwo | utils_test.go:23-27 | two list items joined with ", " parse to their canonical forms |
| CorsExamples.ParseOne | cors_test.go:239-257 | one list item parses to its canonical form |
| CorsExamples.RequestedPairSplits | cors_test.go:220-238 | the requested value is two list items joined with ", " |
| CorsExamples.RequestedPairParses | cors_test.go:220-238 | "X-Header-2, X-HEADER-1" parses to X-Header-2 and X-Header-1 |
| CorsExamples.RequestedUnknownSplits | cors_test.go:277-292 | the refused value is two list items joined with ", " |
| CorsExamples.RequestedUnknownParses | cors_test.go:277-292 | "X-Header-3, X-Header-1" parses to X-Header-3 and X-Header-1 |
| CorsExamples.XHeader3Unlisted | cors_test.go:277-292 | X-Header-3 is none of the compiled configured headers |
| CorsExamples.EchoedPair | cors_test.go:220-238 | the echoed pair joins to "X-Header-2, X-Header-1" |
| CorsExamples.ExposedPair | cors_test.go:311-326 | the exposed pair joins to "X-Header-1, X-Header-2" |
| CorsExamples.AllowedHeaders | cors_test.go:220-238 | allowed requested headers are echoed in canonical form |
| CorsExamples.DisallowedHeader | cors_test.go:277-292 | one requested header that is not allowed leaves only the Vary values |
| CorsExamples.AllowedWildcardHeader | cors_test.go:258-276 | with "\*" allowed, the requested headers are echoed in canonical form |
| CorsExamples.PairListed | cors_test.go:220-238 | X-Header-2 and X-Header-1 are both among the compiled configured headers |
| CorsExamples.UnknownUnlisted | cors_test.go:277-292 | X-Header-3 is requested and not among the compiled configured headers |
| CorsExamples.ConfiguredHeadersAllow | cors_test.go:220-238 | the configured headers admit X-Header-2 and X-Header-1 |
| CorsExamples.ConfiguredHeadersRefuse | cors_test.go:277-292 | the configured headers refuse X-Header-3 with X-Header-1 |
| CorsExamples.DefaultHeadersAllow | cors.go:98-99 | the default allowed headers admit Origin and X-Requested-With |
| CorsExamples.DefaultAllowedHeadersCase | cors_test.go:239-257 | without configured headers, X-Requested-With is granted |
| CorsExamples.OriginItem | cors_test.go:293-310 | origin is one list item |
| CorsExamples.OriginHeader | cors_test.go:293-310 | a request for origin is granted as Origin under the defaults |
| CorsExamples.ListedOriginExposes | cors_test.go:311-326 | a GET from the configured origin shows its exposed headers joined |
| CorsExamples.ExposedHeader | cors_test.go:311-326 | X-Header-1 and x-header-2, exposed, show as "X-Header-1, X-Header-2" |
| CorsExamples.DefaultRejectsPut | cors_test.go:402-405 | the zero options reject PUT |
| CorsExamples.DefaultAllowsOptions | cors_test.go:407-410 | the zero options admit OPTIONS |
| UtilsExamples.WildcardCases | utils_test.go:10-15 | foo\*bar matches foobar and foobazbar and not foobaz |
| UtilsExamples.ConvertCase | utils_test.go:17-21 | converting A, b, C with strings.ToLower gives a, b, c |
| UtilsExamples.ParseEmpty | utils_test.go:29-35 | the empty value parses to no names |
| UtilsExamples.ParseLoneComma | utils_test.go:29-35 | ", " parses to no names |
| UtilsExamples.SentItems | utils_test.go:23-27 | the four sent names are list items |
| UtilsExamples.SentJoined | utils_test.go:23-27 | the four sent names joined with ", " are the test's value |
| UtilsExamples.FirstCanonical | utils_test.go:23-27 | header canonicalises to Header |
| UtilsExamples.SecondCanonical | utils_test.go:23-27 | second-header canonicalises to Second-Header |
| UtilsExamples.ThirdCanonical | utils_test.go:23-27 | THIRD-HEADER canonicalises to Third-Header |
| UtilsExamples.FourthCanonical | utils_test.go:23-27 | Numb3r3d-H34d3r canonicalises to itself |
| UtilsExamples.ParseJoined | utils_test.go:23-27 | a list joined with ", " parses to the canonical forms of its items |
| UtilsExamples.SentConverted | utils_test.go:23-27 | the sent names canonicalise to the expected names |
| UtilsExamples.ParseFour | utils_test.go:23-27 | "header, second-header, THIRD-HEADER, Numb3r3d-H34d3r" parses to Header, Second-Header, Third-Header, Numb3r3d-H34d3r |

## Left out

- The logger and `logf` (cors.go:71-73, 275-279) are left out: they only print, and printing changes no header.
- The net/http transport is left out. A request is its method and its header map, and a response is its header map and the status written. Writing the body is not modelled.
- The downstream handler (`h.ServeHTTP`, `next`) is not modelled as code. The adapters return whether it runs.
- `AllowOriginFunc` is a pure `string -> bool` parameter. The regular expression `^http://foo` of the origin-function cases is modelled as a prefix test.
- Text.ToLower, Text.ToUpper: only ASCII letters change case. Go's full Unicode case mapping is not modelled.
- Http.CanonicalHeaderKey: the rule that leaves a name with a space or an invalid token character unchanged is not modelled. Every name is canonicalised.
- The canonicalisation that `http.Header` applies to keys in `Add`, `Set` and `Get` is not modelled. The source only uses canonical names, and the model writes those names directly.
- The `maxAge` field is an unbounded integer, not a Go `int`.
- `utils.go` is not part of this model. Only the versions of `wildcard.match`, `convert` and `parseHeaderList` pinned down by their call sites and by `utils_test.go` are modelled.
- Text.Split, Text.TrimSpace: stand-ins for the splitting and trimming inside `parseHeaderList`, whose body is in `utils.go`. Text.TrimSpace trims only ASCII white space (space, tab, newline, vertical tab, form feed, carriage return), not the other Unicode white space that Go's `strings.TrimSpace` trims.
- Utils.ParseHeaderList: duplicate names are kept, and the list is not capped before splitting. The model of `parseHeaderList` is split on ',', trim, drop blank pieces, canonicalise.
- The test runner (cors_test.go:372-399) passes a downstream handler that writes status 200. The examples inspect the CORS headers only.
- Where the code is more specific than its documentation, the model follows the code:
  - `handlePreflight` returns without writing Vary when the method is not OPTIONS;
  - `isMethodAllowed` rejects even OPTIONS when the method list is empty;
  - setting `AllowOriginFunc` turns off the allow-all default of an empty origin list, and admission is then the function's answer alone; a "*" among the configured origins still sets allow-all, so Access-Control-Allow-Origin is "*" when credentials are off (CorsProperties.OriginFuncAllowOrigin).

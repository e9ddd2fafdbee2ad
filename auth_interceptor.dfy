/**
 * The HTTP interceptor that attaches the identity provider's access token
 * (authInterceptor and shouldSkip). Requests whose URL starts with one of
 * the skipped prefixes go out untouched.
 */
module AuthInterceptor {

  const SkippedPrefixes: seq<string> := ["/locale/"]
  const AuthorizationHeader := "Authorization"
  const BearerPrefix := "Bearer "

  /** `s.startsWith(prefix)` */
  predicate StartsWith(s: string, prefix: string)
  {
    |prefix| <= |s| && s[..|prefix|] == prefix
  }

  /** `prefixes.some(prefix => url.startsWith(prefix))` */
  function SomePrefixOf(prefixes: seq<string>, url: string): (r: bool)
    ensures r <==> exists i :: 0 <= i < |prefixes| && StartsWith(url, prefixes[i])
  {
    if prefixes == [] then false
    else
      assert forall i :: 1 <= i < |prefixes| ==> prefixes[i] == prefixes[1..][i - 1];
      StartsWith(url, prefixes[0]) || SomePrefixOf(prefixes[1..], url)
  }

  /** `shouldSkip(url)`: exactly the URLs that begin with `/locale/`. */
  function ShouldSkip(url: string): (r: bool)
    ensures r <==> |url| >= 8 && url[..8] == "/locale/"
  {
    SomePrefixOf(SkippedPrefixes, url)
  }

  /** The translation files, fetched at `/locale/messages.<lang>.json`, never carry a token. */
  lemma LocaleFilesAreSkipped(lang: string)
    ensures ShouldSkip("/locale/messages." + lang + ".json")
  {
    var url := "/locale/messages." + lang + ".json";
    assert url[..8] == "/locale/";
  }

  /** A URL that does not begin with `/` (an absolute `http...` URL, say) is never skipped, wherever `/locale/` occurs in it. */
  lemma OnlyRootRelativeUrlsAreSkipped(url: string)
    requires url == [] || url[0] != '/'
    ensures !ShouldSkip(url)
  {
  }

  /** An outgoing request: its URL and headers. */
  datatype Request = Request(url: string, headers: map<string, string>)

  /** What `getAccessTokenSilently()` delivers: the values it emits, or an error. */
  datatype TokenSource = Emits(tokens: seq<string>) | TokenError

  /** What reaches the next handler. */
  datatype Forwarding =
    | Forwarded(request: Request)  // `next(...)` is called with this request
    | Failed                       // the token error propagates to the caller
    | NotSent                      // the token stream completed without a value

  datatype Interception = Interception(tokenRequested: bool, forwarding: Forwarding)

  /**
   * `authInterceptor(req, next)`: a skipped request is passed on as it is,
   * without asking for a token; any other is passed on as a copy carrying
   * `Authorization: Bearer <token>` for the first token emitted.
   */
  function Intercept(req: Request, source: TokenSource): (r: Interception)
    ensures ShouldSkip(req.url) ==> r == Interception(false, Forwarded(req))
    ensures !ShouldSkip(req.url) ==> r.tokenRequested
    ensures !ShouldSkip(req.url) ==> (r.forwarding.Forwarded? <==> source.Emits? && source.tokens != [])
    ensures !ShouldSkip(req.url) && source.TokenError? ==> r.forwarding == Failed
    ensures !ShouldSkip(req.url) && r.forwarding.Forwarded? ==>
      && r.forwarding.request.url == req.url
      && AuthorizationHeader in r.forwarding.request.headers
      && r.forwarding.request.headers[AuthorizationHeader] == BearerPrefix + source.tokens[0]
      && r.forwarding.request.headers.Keys == req.headers.Keys + {AuthorizationHeader}
      && (forall h :: h in req.headers && h != AuthorizationHeader ==>
            r.forwarding.request.headers[h] == req.headers[h])
  {
    if ShouldSkip(req.url) then Interception(false, Forwarded(req))
    else
      match source
      case TokenError => Interception(true, Failed)
      case Emits(tokens) =>
        if tokens == [] then Interception(true, NotSent)
        else
          var token := tokens[0];
          Interception(true, Forwarded(req.(headers := req.headers[AuthorizationHeader := BearerPrefix + token])))
  }

  /** The token in an `Authorization` header value, when it has the bearer form. */
  function BearerToken(header: string): (token: string)
    requires StartsWith(header, BearerPrefix)
    ensures BearerPrefix + token == header
  {
    header[|BearerPrefix|..]
  }

  /** The header the interceptor attaches reads back as the first token emitted, whatever later emissions say. */
  lemma AttachedTokenIsFirst(req: Request, first: string, rest: seq<string>)
    requires !ShouldSkip(req.url)
    ensures var r := Intercept(req, Emits([first] + rest));
      r.forwarding.Forwarded?
      && StartsWith(r.forwarding.request.headers[AuthorizationHeader], BearerPrefix)
      && BearerToken(r.forwarding.request.headers[AuthorizationHeader]) == first
  {
    var h := BearerPrefix + first;
    assert h[..|BearerPrefix|] == BearerPrefix;
    assert h[|BearerPrefix|..] == first;
  }
}

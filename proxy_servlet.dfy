/**
 * The request side of the ESI proxy servlet: every request is forwarded to
 * the upstream ESI server; a request for `swagger.json` is marked so that
 * its response is rewritten; a request carrying the proxy's key/hash query
 * parameters has them replaced by an OAuth bearer header, refreshing the
 * stored access token first when it is about to expire.
 *
 * The credential store, the OAuth refresh exchange, the query-string parser
 * and the clock are parameters (an `Env`); the servlet only decides.
 */
module ProxyServlet {
  import opened Wrappers
  import opened Text
  import opened QueryParams
  import opened ProxyConfig
  import opened Patterns
  import opened SwaggerRewrite
  import opened LineReader

  datatype HttpHost = HttpHost(hostName: string, port: int, scheme: string)

  function Upstream(): HttpHost {
    HttpHost(UPSTREAM_HOST, UPSTREAM_PORT, UPSTREAM_SCHEME)
  }

  /** The name under which `service` stores the bearer header as a request attribute. */
  const AUTH_HEADER_ATTRIBUTE: string := "ESIProxyServlet.authHeader"

  /** The stored connection fields the request path reads and writes. */
  datatype AccessKey = AccessKey(kid: int, accessToken: string, accessTokenExpiry: int, refreshToken: Option<string>)

  /** `ProxyAccessKey.checkHash`: throws NoSuchKeyException, returns null on a wrong hash, or the key. */
  datatype HashCheck = NoSuchKey | HashMismatch | Matched(key: AccessKey)

  /** The token an OAuth refresh exchange returns; `expiresIn` is in seconds. */
  datatype RefreshedToken = RefreshedToken(accessToken: string, expiresIn: int, refreshToken: Option<string>)

  /**
   * What the servlet consults but does not compute: the query parser
   * (None when the text is not a valid URI), the key store's hash check, the
   * OAuth refresh exchange (None on failure), the store update (None on
   * failure), and the two clock readings (`now` when the expiry is checked,
   * `refreshedAt` after a refresh returns).
   */
  datatype Env = Env(
    parseQuery: string -> Option<seq<Param>>,
    checkHash: (int, Option<string>) -> HashCheck,
    refresh: string -> Option<RefreshedToken>,
    update: AccessKey -> Option<AccessKey>,
    now: int,
    refreshedAt: int)

  /** Why a request was refused with `sendError`. */
  datatype Refusal = BadProxyKey | IncorrectHash | NoConnection | NoRefreshToken | RefreshFailed | UpdateFailed

  /** Exceptions `service` lets escape. */
  datatype Fault =
    | NoSlashInServletPath  // substring(-1) on a servlet path without '/'
    | NoPathInfo            // endsWith on a null path info
    | QuerySyntax           // the IOException wrapping a URISyntaxException

  datatype Outcome =
    | ForwardSwagger(targetUri: string)
    | Forward(targetUri: string, authHeader: Option<string>, query: string)
    | Refused(reason: Refusal)
    | Failed(fault: Fault)

  datatype Credential = Authorized(header: string) | Denied(reason: Refusal)

  /** The HTTP status sent for each refusal. */
  function Status(reason: Refusal): (code: int)
    ensures code == 400 <==> reason in {BadProxyKey, IncorrectHash, NoConnection}
    ensures code == 403 <==> reason in {NoRefreshToken, RefreshFailed, UpdateFailed}
  {
    match reason
    case BadProxyKey => 400
    case IncorrectHash => 400
    case NoConnection => 400
    case NoRefreshToken => 403
    case RefreshFailed => 403
    case UpdateFailed => 403
  }

  /** The last segment of the servlet path, from its last '/' (for example "/latest"). */
  function ContextPath(servletPath: string): (r: Option<string>)
    ensures r.None? <==> '/' !in servletPath
    ensures r.Some? ==> |r.value| >= 1 && r.value[0] == '/' && '/' !in r.value[1..]
    ensures r.Some? ==> EndsWith(servletPath, r.value)
  {
    var slash := LastIndexOf(servletPath, '/');
    if slash < 0 then None else Some(servletPath[slash..])
  }

  /** The text handed to the URI parser: "?" and the raw query (Java renders null as "null"), cut at the first '#'. */
  function QueryToParse(queryString: Option<string>): (r: string)
    ensures |r| >= 1 && r[0] == '?' && '#' !in r
    ensures queryString.None? ==> r == "?null"
    ensures queryString.Some? && '#' !in queryString.value ==> r == "?" + queryString.value
    ensures queryString.Some? ==> |r| <= |queryString.value| + 1 && r[1..] == queryString.value[..|r| - 1]
  {
    var q := "?" + queryString.GetOr("null");
    var hash := IndexOf(q, '#');
    if hash >= 0 then q[..hash] else q
  }

  function Bearer(token: string): string {
    "Bearer " + token
  }

  /** The token is refreshed when its expiry, less the current time (as a Java long), is inside the window. */
  predicate NeedsRefresh(expiry: int, now: int, window: int) {
    WrapLong(expiry - now) < window
  }

  /** The key with the refreshed token, its expiry in milliseconds, and the new refresh token. */
  function Refreshed(key: AccessKey, token: RefreshedToken, at: int): (r: AccessKey)
    ensures r.kid == key.kid && r.accessToken == token.accessToken && r.refreshToken == token.refreshToken
    ensures IsLong(r.accessTokenExpiry)
    ensures IsLong(at + token.expiresIn * 1000) ==> r.accessTokenExpiry == at + token.expiresIn * 1000
  {
    key.(accessToken := token.accessToken,
         accessTokenExpiry := WrapLong(at + token.expiresIn * 1000),
         refreshToken := token.refreshToken)
  }

  /** The key number: `Long.valueOf` of the parameter, which rejects null and anything but a decimal long. */
  function ProxyKeyNumber(value: Option<string>): (r: Option<int>)
    ensures value.None? ==> r.None?
    ensures r.Some? ==> IsLong(r.value)
  {
    if value.Some? then ParseLong(value.value) else None
  }

  /** The credential check for a request that carries both parameters. */
  function Authorize(window: int, keyValue: Option<string>, hashValue: Option<string>, env: Env): (c: Credential)
    ensures c.Authorized? ==> StartsWith(c.header, "Bearer ")
    ensures c.Authorized? ==> ProxyKeyNumber(keyValue).Some? && env.checkHash(ProxyKeyNumber(keyValue).value, hashValue).Matched?
  {
    var pKey := ProxyKeyNumber(keyValue);
    if pKey.None? then Denied(BadProxyKey)
    else match env.checkHash(pKey.value, hashValue)
      case NoSuchKey => Denied(NoConnection)
      case HashMismatch => Denied(IncorrectHash)
      case Matched(key) =>
        if !NeedsRefresh(key.accessTokenExpiry, env.now, window) then Authorized(Bearer(key.accessToken))
        else if key.refreshToken.None? then Denied(NoRefreshToken)
        else match env.refresh(key.refreshToken.value)
          case None => Denied(RefreshFailed)
          case Some(token) =>
            match env.update(Refreshed(key, token, env.refreshedAt))
            case None => Denied(UpdateFailed)
            case Some(saved) => Authorized(Bearer(saved.accessToken))
  }

  /** Both credential parameters are in the parameter map. */
  predicate HasCredentials(cfg: Config, params: seq<Param>) {
    cfg.keyName in Names(params) && cfg.hashName in Names(params)
  }

  /** The parameter map once both credential parameters are taken out. */
  function WithoutCredentials(cfg: Config, params: seq<Param>): (r: seq<Param>)
    requires DistinctNames(params)
    ensures DistinctNames(r)
    ensures cfg.keyName !in Names(r) && cfg.hashName !in Names(r)
    ensures forall n :: n != cfg.keyName && n != cfg.hashName ==> Lookup(r, n) == Lookup(params, n)
    ensures Names(r) == OtherNames(OtherNames(Names(params), cfg.keyName), cfg.hashName)
  {
    var once := RemoveParam(params, cfg.keyName);
    RemoveParamSubsequence(params, cfg.keyName);
    RemoveParamSubsequence(once, cfg.hashName);
    RemoveParamDistinct(params, cfg.keyName);
    RemoveParamNames(params, cfg.keyName);
    RemoveParamDistinct(once, cfg.hashName);
    RemoveParamNames(once, cfg.hashName);
    forall n | n != cfg.keyName && n != cfg.hashName
      ensures Lookup(RemoveParam(once, cfg.hashName), n) == Lookup(params, n)
    {
      RemoveParamLookup(params, cfg.keyName, n);
      RemoveParamLookup(once, cfg.hashName, n);
    }
    RemoveParam(once, cfg.hashName)
  }

  /** What `service` does with one request. */
  function Dispatch(cfg: Config, servletPath: string, pathInfo: Option<string>, queryString: Option<string>, env: Env): Outcome
  {
    match ContextPath(servletPath)
    case None => Failed(NoSlashInServletPath)
    case Some(contextPath) =>
      if pathInfo.None? then Failed(NoPathInfo)
      else if EndsWith(pathInfo.value, "swagger.json") then ForwardSwagger(contextPath)
      else match env.parseQuery(QueryToParse(queryString))
        case None => Failed(QuerySyntax)
        case Some(pairs) =>
          FromPairsOrder(pairs);
          Decide(cfg, contextPath, FromPairs(pairs), env)
  }

  /** What `service` does once the query has been parsed into the parameter map. */
  function Decide(cfg: Config, contextPath: string, params: seq<Param>, env: Env): Outcome
    requires DistinctNames(params)
  {
    if HasCredentials(cfg, params) then
      match Authorize(cfg.expiryWindow, ValueOf(params, cfg.keyName), ValueOf(params, cfg.hashName), env)
      case Denied(reason) => Refused(reason)
      case Authorized(header) => Forward(contextPath, Some(header), QueryOf(WithoutCredentials(cfg, params)))
    else Forward(contextPath, None, QueryOf(params))
  }

  /**
   * The request as the servlet sees it: fixed request data (with the
   * parameters the container decoded from the client's query, in order), and
   * the attributes `service` sets.
   */
  class ServletRequest {
    const servletPath: string
    const pathInfo: Option<string>
    const queryString: Option<string>
    const parameters: seq<Param>
    var targetHost: Option<HttpHost>
    var targetUri: Option<string>
    var swaggerConfig: bool
    var authHeader: Option<string>
    var forwardQuery: Option<string>

    constructor (servletPath: string, pathInfo: Option<string>, queryString: Option<string>, parameters: seq<Param>)
      ensures this.servletPath == servletPath && this.pathInfo == pathInfo && this.queryString == queryString
      ensures this.parameters == parameters
      ensures targetHost.None? && targetUri.None? && !swaggerConfig && authHeader.None? && forwardQuery.None?
    {
      this.servletPath := servletPath;
      this.pathInfo := pathInfo;
      this.queryString := queryString;
      this.parameters := parameters;
      targetHost := None;
      targetUri := None;
      swaggerConfig := false;
      authHeader := None;
      forwardQuery := None;
    }
  }

  class EsiProxyServlet {
    const config: Config
    const securityDefinition: string
    const security: string

    ghost predicate Valid()
    {
      securityDefinition == SecurityDefinition(config) && security == SecurityReplacementSource(config)
    }

    /** `initTarget`: the configuration, and the two replacement texts built from the parameter names. */
    constructor (cfg: Config)
      ensures config == cfg && Valid()
    {
      config := cfg;
      securityDefinition := SecurityDefinition(cfg);
      security := SecurityReplacementSource(cfg);
    }

    method Service(req: ServletRequest, env: Env) returns (outcome: Outcome)
      modifies req
      ensures outcome == Dispatch(config, req.servletPath, req.pathInfo, req.queryString, env)
      ensures outcome.ForwardSwagger? ==>
        req.targetHost == Some(Upstream()) && req.targetUri == Some(outcome.targetUri) && req.swaggerConfig
        && req.authHeader == old(req.authHeader) && req.forwardQuery == old(req.forwardQuery)
      ensures outcome.Forward? ==>
        req.targetHost == Some(Upstream()) && req.targetUri == Some(outcome.targetUri)
        && req.swaggerConfig == old(req.swaggerConfig) && req.forwardQuery == Some(outcome.query)
        && req.authHeader == (if outcome.authHeader.Some? then outcome.authHeader else old(req.authHeader))
      ensures outcome.Refused? || outcome.Failed? ==> unchanged(req)
    {
      outcome := Route(req.servletPath, req.pathInfo, req.queryString, env);
      Apply(req, outcome);
    }

    /** The checks of `service`, in its order, up to the outcome of the request. */
    method Route(servletPath: string, pathInfo: Option<string>, queryString: Option<string>, env: Env) returns (outcome: Outcome)
      ensures outcome == Dispatch(config, servletPath, pathInfo, queryString, env)
    {
      var contextPath := ContextPath(servletPath);
      if contextPath.None? {
        return Failed(NoSlashInServletPath);
      }
      if pathInfo.None? {
        return Failed(NoPathInfo);
      }
      if EndsWith(pathInfo.value, "swagger.json") {
        return ForwardSwagger(contextPath.value);
      }

      var parsed := env.parseQuery(QueryToParse(queryString));
      if parsed.None? {
        return Failed(QuerySyntax);
      }
      var params := CollectParams(parsed.value);
      FromPairsOrder(parsed.value);
      outcome := Settle(contextPath.value, params, env);
    }

    /**
     * The request attributes `service` sets on the way: the upstream host and
     * path, the swagger flag, the bearer header and the rebuilt query.
     */
    method Apply(req: ServletRequest, outcome: Outcome)
      modifies req
      ensures outcome.ForwardSwagger? ==>
        req.targetHost == Some(Upstream()) && req.targetUri == Some(outcome.targetUri) && req.swaggerConfig
        && req.authHeader == old(req.authHeader) && req.forwardQuery == old(req.forwardQuery)
      ensures outcome.Forward? ==>
        req.targetHost == Some(Upstream()) && req.targetUri == Some(outcome.targetUri)
        && req.swaggerConfig == old(req.swaggerConfig) && req.forwardQuery == Some(outcome.query)
        && req.authHeader == (if outcome.authHeader.Some? then outcome.authHeader else old(req.authHeader))
      ensures outcome.Refused? || outcome.Failed? ==> unchanged(req)
    {
      match outcome
      case ForwardSwagger(uri) =>
        req.targetHost := Some(Upstream());
        req.targetUri := Some(uri);
        req.swaggerConfig := true;
      case Forward(uri, header, query) =>
        if header.Some? {
          req.authHeader := header;
        }
        req.targetHost := Some(Upstream());
        req.targetUri := Some(uri);
        req.forwardQuery := Some(query);
      case _ =>
    }

    /**
     * The part of `service` after the query has been parsed: the key/hash
     * check, which takes both credential parameters out of the map once the
     * key number parses, then the query that goes upstream.
     */
    method Settle(contextPath: string, params: ParamMap, env: Env) returns (outcome: Outcome)
      requires params.Valid()
      modifies params
      ensures outcome == Decide(config, contextPath, old(params.entries), env)
    {
      ghost var entries := params.entries;
      var credential := TakeCredentials(params, env);
      var header: Option<string> := None;
      if credential.Some? {
        if credential.value.Denied? {
          return Refused(credential.value.reason);
        }
        assert ProxyKeyNumber(ValueOf(entries, config.keyName)).Some?;
        assert params.entries == WithoutCredentials(config, entries);
        header := Some(credential.value.header);
      }
      var newQuery := BuildQuery(params.entries);
      outcome := Forward(contextPath, header, newQuery);
    }

    /** Puts each parsed pair in turn into a fresh insertion-ordered map. */
    method CollectParams(pairs: seq<Param>) returns (params: ParamMap)
      ensures fresh(params) && params.Valid()
      ensures params.entries == FromPairs(pairs)
    {
      params := new ParamMap();
      var i := 0;
      while i < |pairs|
        invariant 0 <= i <= |pairs|
        invariant params.Valid() && params.entries == FromPairs(pairs[..i])
        modifies params
      {
        assert pairs[..i + 1][..i] == pairs[..i];
        params.Put(pairs[i].name, pairs[i].value);
        i := i + 1;
      }
      assert pairs[..|pairs|] == pairs;
    }

    /**
     * The key/hash block of `service`: None when the map lacks either
     * parameter; otherwise the credential check, with both parameters taken
     * out of the map once the key number parses.
     */
    method TakeCredentials(params: ParamMap, env: Env) returns (credential: Option<Credential>)
      requires params.Valid()
      modifies params
      ensures params.Valid()
      ensures credential.None? <==> !HasCredentials(config, old(params.entries))
      ensures credential.Some? ==>
        (credential.value == Authorize(config.expiryWindow, ValueOf(old(params.entries), config.keyName), ValueOf(old(params.entries), config.hashName), env))
      ensures params.entries ==
        if HasCredentials(config, old(params.entries)) && ProxyKeyNumber(ValueOf(old(params.entries), config.keyName)).Some?
        then WithoutCredentials(config, old(params.entries))
        else old(params.entries)
    {
      if !(params.ContainsKey(config.keyName) && params.ContainsKey(config.hashName)) {
        return None;
      }
      var pKey := ProxyKeyNumber(params.Get(config.keyName));
      if pKey.None? {
        return Some(Denied(BadProxyKey));
      }
      var pHash := params.Get(config.hashName);
      ghost var all := params.entries;
      params.Remove(config.keyName);
      params.Remove(config.hashName);
      assert params.entries == WithoutCredentials(config, all);
      var check := env.checkHash(pKey.value, pHash);
      if check.NoSuchKey? {
        return Some(Denied(NoConnection));
      }
      if check.HashMismatch? {
        return Some(Denied(IncorrectHash));
      }
      var connKey := check.key;
      if NeedsRefresh(connKey.accessTokenExpiry, env.now, config.expiryWindow) {
        if connKey.refreshToken.None? {
          return Some(Denied(NoRefreshToken));
        }
        var newToken := env.refresh(connKey.refreshToken.value);
        if newToken.None? {
          return Some(Denied(RefreshFailed));
        }
        var saved := env.update(Refreshed(connKey, newToken.value, env.refreshedAt));
        if saved.None? {
          return Some(Denied(UpdateFailed));
        }
        connKey := saved.value;
      }
      return Some(Authorized(Bearer(connKey.accessToken)));
    }

    /**
     * `copyRequestHeaders` as written: the Authorization header it adds is
     * the client's request parameter named like the attribute, not the
     * attribute `service` set.
     */
    method CopyRequestHeaders(req: ServletRequest) returns (authorization: Option<string>)
      ensures authorization == AuthorizationAsWritten(req.parameters)
      ensures AUTH_HEADER_ATTRIBUTE !in Names(req.parameters) ==> authorization.None?
    {
      authorization := RequestParameter(req.parameters, AUTH_HEADER_ATTRIBUTE);
    }

    /** `service` followed by the header copy for the forwarded request, as written. */
    method ProxyRequest(req: ServletRequest, env: Env) returns (outcome: Outcome, authorization: Option<string>)
      modifies req
      ensures outcome == Dispatch(config, req.servletPath, req.pathInfo, req.queryString, env)
      ensures authorization == AuthorizationAsWritten(req.parameters)
    {
      outcome := Service(req, env);
      authorization := CopyRequestHeaders(req);
    }

    /** The header copy as evidently intended: the bearer header read back from the request attribute. */
    method CopyAuthorizationAttribute(req: ServletRequest) returns (authorization: Option<string>)
      ensures authorization == req.authHeader
    {
      authorization := req.authHeader;
    }

    /** With the intended header copy, a forwarded request carries exactly the header `service` decided on. */
    method ProxyRequestIntended(req: ServletRequest, env: Env) returns (outcome: Outcome, authorization: Option<string>)
      requires req.authHeader.None?
      modifies req
      ensures outcome == Dispatch(config, req.servletPath, req.pathInfo, req.queryString, env)
      ensures outcome.Forward? ==> authorization == outcome.authHeader
      ensures outcome.ForwardSwagger? ==> authorization.None?
    {
      outcome := Service(req, env);
      authorization := CopyAuthorizationAttribute(req);
    }

    /**
     * `copyResponseEntity`: other responses go through the generic copy; a
     * swagger document is decompressed when the upstream declared gzip, read
     * line by line, rewritten in five steps, and written back the way it came.
     */
    method CopyResponseEntity(req: ServletRequest, response: UpstreamResponse, codec: Codec) returns (outcome: CopyOutcome)
      requires Valid()
      ensures outcome == CopyResponse(config, req.swaggerConfig, response, codec)
    {
      if !req.swaggerConfig {
        return PassThrough;
      }
      if response.entity.None? {
        return NothingWritten;
      }
      if response.contentEncoding.None? {
        return CopyFailed(MissingContentEncoding);
      }
      var useGzip := response.contentEncoding.value == "gzip";
      var raw := response.entity.value;
      if useGzip {
        var unzipped := codec.gunzip(raw);
        if unzipped.None? {
          return CopyFailed(BadGzip);
        }
        raw := unzipped.value;
      }
      var src := AssembleLines(codec.decode(raw));
      var transformed := HostStep(config, src);
      if transformed.Some? {
        transformed := BasePathStep(config, transformed.value);
      }
      if transformed.Some? {
        transformed := SchemesStep(config, transformed.value);
      }
      MatchersSound();
      if transformed.Some? {
        var s3 := transformed.value;
        transformed := ReplaceFirst(SecDefMatch, s3, m => securityDefinition);
        assert transformed == SecDefStep(config, s3);
      }
      if transformed.Some? {
        var s4 := transformed.value;
        transformed := ReplaceEvery(SecurityMatch, s4, security);
        assert transformed == SecurityStep(config, s4);
      }
      if transformed.None? {
        return CopyFailed(BadReplacement);
      }
      var bytesOut := codec.encode(transformed.value);
      return Written(if useGzip then codec.gzip(bytesOut) else bytesOut);
    }
  }

  // ---------------------------------------------------------------------------
  // Properties of the request path
  // ---------------------------------------------------------------------------

  /** After a successful parse, `service` decides on the map built from the pairs, whose names are those of the pairs. */
  lemma DispatchParsed(cfg: Config, servletPath: string, path: string, queryString: Option<string>, env: Env, pairs: seq<Param>)
    requires '/' in servletPath && !EndsWith(path, "swagger.json")
    requires env.parseQuery(QueryToParse(queryString)) == Some(pairs)
    ensures DistinctNames(FromPairs(pairs))
    ensures Dispatch(cfg, servletPath, Some(path), queryString, env) == Decide(cfg, ContextPath(servletPath).value, FromPairs(pairs), env)
    ensures HasCredentials(cfg, FromPairs(pairs)) <==> cfg.keyName in Names(pairs) && cfg.hashName in Names(pairs)
  {
    FromPairsOrder(pairs);
    FirstOccurrencesMembers(Names(pairs));
  }

  /** A swagger.json request is forwarded for rewriting without parsing the query or consulting the key store. */
  lemma SwaggerRequestsSkipCredentials(cfg: Config, servletPath: string, path: string, queryString: Option<string>, env1: Env, env2: Env)
    requires '/' in servletPath && EndsWith(path, "swagger.json")
    ensures Dispatch(cfg, servletPath, Some(path), queryString, env1) == ForwardSwagger(ContextPath(servletPath).value)
    ensures Dispatch(cfg, servletPath, Some(path), queryString, env1) == Dispatch(cfg, servletPath, Some(path), queryString, env2)
  {
  }

  /**
   * A request lacking either credential parameter is passed through: no
   * bearer header, every parsed parameter forwarded once (first-seen order,
   * last value), and the key store never consulted.
   */
  lemma PassThroughWithoutCredentials(cfg: Config, servletPath: string, path: string, queryString: Option<string>, env: Env, pairs: seq<Param>)
    requires '/' in servletPath && !EndsWith(path, "swagger.json")
    requires env.parseQuery(QueryToParse(queryString)) == Some(pairs)
    requires cfg.keyName !in Names(pairs) || cfg.hashName !in Names(pairs)
    ensures Dispatch(cfg, servletPath, Some(path), queryString, env)
         == Forward(ContextPath(servletPath).value, None, QueryOf(FromPairs(pairs)))
    ensures Names(FromPairs(pairs)) == FirstOccurrences(Names(pairs))
  {
    DispatchParsed(cfg, servletPath, path, queryString, env, pairs);
    FromPairsOrder(pairs);
  }

  /**
   * A request carrying both credential parameters is refused exactly when
   * the credential check refuses it, and nothing is forwarded then;
   * otherwise it is forwarded with the bearer header and the other
   * parameters, in first-insertion order.
   */
  lemma ForwardWithCredentials(cfg: Config, servletPath: string, path: string, queryString: Option<string>, env: Env, pairs: seq<Param>)
    requires '/' in servletPath && !EndsWith(path, "swagger.json")
    requires env.parseQuery(QueryToParse(queryString)) == Some(pairs)
    requires cfg.keyName in Names(pairs) && cfg.hashName in Names(pairs)
    ensures DistinctNames(FromPairs(pairs))
    ensures var c := Authorize(cfg.expiryWindow, ValueOf(FromPairs(pairs), cfg.keyName), ValueOf(FromPairs(pairs), cfg.hashName), env);
      && (c.Denied? ==> Dispatch(cfg, servletPath, Some(path), queryString, env) == Refused(c.reason))
      && (c.Authorized? ==>
            Dispatch(cfg, servletPath, Some(path), queryString, env) == Forward(ContextPath(servletPath).value, Some(c.header), QueryOf(WithoutCredentials(cfg, FromPairs(pairs)))))
    ensures Names(WithoutCredentials(cfg, FromPairs(pairs)))
         == OtherNames(OtherNames(FirstOccurrences(Names(pairs)), cfg.keyName), cfg.hashName)
  {
    DispatchParsed(cfg, servletPath, path, queryString, env, pairs);
    FromPairsOrder(pairs);
  }

  /**
   * Once the query parses, a bearer header is attached exactly when both
   * credential parameters are present, and only a request carrying both can
   * be refused.
   */
  lemma CredentialsDecideHeader(cfg: Config, servletPath: string, path: string, queryString: Option<string>, env: Env, pairs: seq<Param>)
    requires '/' in servletPath && !EndsWith(path, "swagger.json")
    requires env.parseQuery(QueryToParse(queryString)) == Some(pairs)
    ensures var out := Dispatch(cfg, servletPath, Some(path), queryString, env);
      (out.Forward? || out.Refused?)
      && (out.Refused? ==> cfg.keyName in Names(pairs) && cfg.hashName in Names(pairs))
      && (out.Forward? ==> (out.authHeader.Some? <==> cfg.keyName in Names(pairs) && cfg.hashName in Names(pairs)))
      && (out.Forward? && out.authHeader.Some? ==> StartsWith(out.authHeader.value, "Bearer "))
  {
    DispatchParsed(cfg, servletPath, path, queryString, env, pairs);
  }

  /**
   * When both credentials are present and accepted, the forwarded query read
   * back piece by piece names neither credential parameter (for parameters
   * whose names hold no '&' or '=' and whose values hold no '&').
   */
  lemma ForwardedQueryDropsCredentials(cfg: Config, servletPath: string, path: string, queryString: Option<string>, env: Env, pairs: seq<Param>)
    requires '/' in servletPath && !EndsWith(path, "swagger.json")
    requires env.parseQuery(QueryToParse(queryString)) == Some(pairs)
    requires forall i :: 0 <= i < |pairs| ==> PlainParam(pairs[i])
    requires Dispatch(cfg, servletPath, Some(path), queryString, env).Forward?
    requires cfg.keyName in Names(pairs) && cfg.hashName in Names(pairs)
    ensures var q := Dispatch(cfg, servletPath, Some(path), queryString, env).query;
      q == "" || forall piece :: piece in Split(q, '&') ==> Split(piece, '=')[0] != cfg.keyName && Split(piece, '=')[0] != cfg.hashName
  {
    DispatchParsed(cfg, servletPath, path, queryString, env, pairs);
    var params := FromPairs(pairs);
    var kept := WithoutCredentials(cfg, params);
    FromPairsMembers(pairs);
    RemoveParamSubsequence(params, cfg.keyName);
    RemoveParamSubsequence(RemoveParam(params, cfg.keyName), cfg.hashName);
    forall i | 0 <= i < |kept| ensures PlainParam(kept[i]) {
      assert kept[i] in pairs;
    }
    QueryOmitsNames(kept, cfg.keyName, cfg.hashName);
  }

  /**
   * Without the plain-parameter condition the rebuilt query can name a
   * credential after all: a decoded value holding "&key=rest" is written back
   * as it is, and reads as a piece of its own naming the key.
   */
  lemma DecodedValueNamesCredential(name: string, key: string, rest: string)
    requires '&' !in name && '=' !in name && '&' !in key && '=' !in key && '&' !in rest
    ensures var piece := key + ['='] + rest;
      && piece in Split(QueryOf([Param(name, Some(['&'] + piece))]), '&')
      && Split(piece, '=')[0] == key
  {
    var piece := key + ['='] + rest;
    var p := Param(name, Some(['&'] + piece));
    assert RenderAll([p]) == [Render(p)];
    assert QueryOf([p]) == (name + ['=']) + ['&'] + piece;
    SplitTwo(name + ['='], '&', piece);
    SeparatorAt(key, '=', rest);
  }

  /** Text with one separator splits into the two sides. */
  lemma SplitTwo(head: string, sep: char, tail: string)
    requires sep !in head && sep !in tail
    ensures Split(head + [sep] + tail, sep) == [head, tail]
  {
    SeparatorAt(head, sep, tail);
    assert IndexOf(tail, sep) == -1;
  }

  /** A query built from plain parameters, read back piece by piece, names no parameter absent from the map. */
  lemma QueryOmitsNames(kept: seq<Param>, key: string, hash: string)
    requires forall i :: 0 <= i < |kept| ==> PlainParam(kept[i])
    requires key !in Names(kept) && hash !in Names(kept)
    ensures var q := QueryOf(kept);
      q == "" || forall piece :: piece in Split(q, '&') ==> Split(piece, '=')[0] != key && Split(piece, '=')[0] != hash
  {
    if |kept| >= 1 {
      QueryNames(kept);
      var pieces := Split(QueryOf(kept), '&');
      forall piece | piece in pieces
        ensures Split(piece, '=')[0] != key && Split(piece, '=')[0] != hash
      {
        var i :| 0 <= i < |pieces| && pieces[i] == piece;
        assert Names(kept)[i] == kept[i].name;
      }
    } else {
      assert QueryOf(kept) == "";
    }
  }

  /** A fresh token is used as it is: the refresh exchange and the store update play no part. */
  lemma FreshTokenUsedAsIs(window: int, keyValue: Option<string>, hashValue: Option<string>, env1: Env, env2: Env, key: AccessKey)
    requires ProxyKeyNumber(keyValue).Some?
    requires env1.checkHash(ProxyKeyNumber(keyValue).value, hashValue) == Matched(key)
    requires env2.checkHash(ProxyKeyNumber(keyValue).value, hashValue) == Matched(key)
    requires env1.now == env2.now
    requires !NeedsRefresh(key.accessTokenExpiry, env1.now, window)
    ensures Authorize(window, keyValue, hashValue, env1) == Authorize(window, keyValue, hashValue, env2)
         == Authorized(Bearer(key.accessToken))
  {
  }

  /**
   * A token inside the refresh window is replaced: the store is asked to save
   * the key with the new token, its expiry `expiresIn` seconds after the
   * refresh and the new refresh token, and the header carries the new token.
   */
  lemma StaleTokenRefreshed(window: int, keyValue: Option<string>, hashValue: Option<string>, env: Env, key: AccessKey, token: RefreshedToken)
    requires ProxyKeyNumber(keyValue).Some?
    requires env.checkHash(ProxyKeyNumber(keyValue).value, hashValue) == Matched(key)
    requires NeedsRefresh(key.accessTokenExpiry, env.now, window)
    requires key.refreshToken.Some? && env.refresh(key.refreshToken.value) == Some(token)
    requires var saved := Refreshed(key, token, env.refreshedAt); env.update(saved) == Some(saved)
    ensures Authorize(window, keyValue, hashValue, env) == Authorized(Bearer(token.accessToken))
    ensures IsLong(env.refreshedAt + token.expiresIn * 1000) ==>
      Refreshed(key, token, env.refreshedAt).accessTokenExpiry == env.refreshedAt + token.expiresIn * 1000
  {
  }

  /**
   * Each refusal of the credential check and its condition: a key that is
   * not a long, an unknown key, a wrong hash, and, for a token inside the
   * refresh window, a missing refresh token, a failed refresh or a failed save.
   */
  lemma AuthorizeRefusals(window: int, keyValue: Option<string>, hashValue: Option<string>, env: Env)
    ensures ProxyKeyNumber(keyValue).None? ==> Authorize(window, keyValue, hashValue, env) == Denied(BadProxyKey)
    ensures var c := Authorize(window, keyValue, hashValue, env); var pKey := ProxyKeyNumber(keyValue);
      pKey.Some? ==>
      && (env.checkHash(pKey.value, hashValue) == NoSuchKey ==> c == Denied(NoConnection))
      && (env.checkHash(pKey.value, hashValue) == HashMismatch ==> c == Denied(IncorrectHash))
    ensures var c := Authorize(window, keyValue, hashValue, env); var pKey := ProxyKeyNumber(keyValue);
      pKey.Some? && env.checkHash(pKey.value, hashValue).Matched? ==>
      var key := env.checkHash(pKey.value, hashValue).key;
      var stale := NeedsRefresh(key.accessTokenExpiry, env.now, window);
      && (stale && key.refreshToken.None? ==> c == Denied(NoRefreshToken))
      && (stale && key.refreshToken.Some? && env.refresh(key.refreshToken.value).None? ==> c == Denied(RefreshFailed))
      && (stale && key.refreshToken.Some? && env.refresh(key.refreshToken.value).Some? ==>
          var saved := Refreshed(key, env.refresh(key.refreshToken.value).value, env.refreshedAt);
          env.update(saved).None? ==> c == Denied(UpdateFailed))
  {
  }

  /** A stale token with no way to renew it is refused with 403; a key that does not parse or check out, with 400. */
  lemma RefusalStatuses(window: int, keyValue: Option<string>, hashValue: Option<string>, env: Env)
    ensures Authorize(window, keyValue, hashValue, env).Denied? ==>
      var reason := Authorize(window, keyValue, hashValue, env).reason;
      (Status(reason) == 400 <==>
        ProxyKeyNumber(keyValue).None? || !env.checkHash(ProxyKeyNumber(keyValue).value, hashValue).Matched?)
  {
  }

  /** While expiry and clock are within long range, the refresh test is "expires within the window". */
  lemma RefreshWindow(expiry: int, now: int, window: int)
    requires IsLong(expiry - now)
    ensures NeedsRefresh(expiry, now, window) <==> expiry < now + window
  {
  }

  // ---------------------------------------------------------------------------
  // copyRequestHeaders as written
  // ---------------------------------------------------------------------------

  /** `getParameter`: the first value given for a name ("" when it has no '='), or null. */
  function RequestParameter(ps: seq<Param>, name: string): (r: Option<string>)
    ensures r.None? <==> name !in Names(ps)
    ensures r.Some? ==> exists i :: 0 <= i < |ps| && ps[i].name == name && r.value == ps[i].value.GetOr("")
    ensures forall i :: 0 <= i < |ps| && ps[i].name == name && name !in Names(ps)[..i] ==> r == Some(ps[i].value.GetOr(""))
  {
    if |ps| == 0 then None
    else if ps[0].name == name then Some(ps[0].value.GetOr(""))
    else
      assert Names(ps) == [ps[0].name] + Names(ps[1..]);
      var r := RequestParameter(ps[1..], name);
      assert forall i :: 1 <= i < |ps| ==> ps[i] == ps[1..][i - 1] && Names(ps)[..i] == [ps[0].name] + Names(ps[1..])[..i - 1];
      if r.Some? then
        var i :| 0 <= i < |ps| - 1 && ps[1..][i].name == name && r.value == ps[1..][i].value.GetOr("");
        assert ps[i + 1] == ps[1..][i];
        r
      else r
  }

  /**
   * The Authorization header `copyRequestHeaders` adds as written: it reads a
   * request PARAMETER named like the attribute, so the header comes from the
   * client's own query rather than from `service`.
   */
  function AuthorizationAsWritten(clientParams: seq<Param>): Option<string>
  {
    RequestParameter(clientParams, AUTH_HEADER_ATTRIBUTE)
  }

  /**
   * As written, an accepted credential never reaches the upstream server:
   * `service` computes the bearer header, but unless the client also passed a
   * parameter named like the attribute, no Authorization header is added;
   * and when the client does pass one, that client value is sent instead.
   */
  lemma BearerHeaderDropped(cfg: Config, servletPath: string, path: string, queryString: Option<string>, env: Env, pairs: seq<Param>)
    requires '/' in servletPath && !EndsWith(path, "swagger.json")
    requires env.parseQuery(QueryToParse(queryString)) == Some(pairs)
    requires cfg.keyName in Names(pairs) && cfg.hashName in Names(pairs)
    requires Dispatch(cfg, servletPath, Some(path), queryString, env).Forward?
    ensures Dispatch(cfg, servletPath, Some(path), queryString, env).authHeader.Some?
    ensures AUTH_HEADER_ATTRIBUTE !in Names(pairs) ==> AuthorizationAsWritten(pairs).None?
    ensures AUTH_HEADER_ATTRIBUTE in Names(pairs) ==>
      exists i :: 0 <= i < |pairs| && pairs[i].name == AUTH_HEADER_ATTRIBUTE && AuthorizationAsWritten(pairs) == Some(pairs[i].value.GetOr(""))
  {
    CredentialsDecideHeader(cfg, servletPath, path, queryString, env, pairs);
  }
}

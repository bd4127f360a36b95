/**
 * `SaxoAuthService`: the OAuth session object of the authentication
 * service. It resolves the redirect URL, builds the authorization and token
 * request parameters, records the SSO callback, checks error and state, and
 * keeps the token data that decides whether the session is logged in.
 * Random values, SHA-256 and the token endpoint's reply are parameters.
 */
module AuthService {
  import opened Common
  import opened Config
  import Pkce

  /** The exceptions `SaxoAuthService` raises and the condition raising each. */
  datatype ServiceError =
    | NotLoggedIn                       // ValueError: no token data
    | RedirectNotAllowed                // ValueError: URL not among the configured ones
    | NoRedirectUrls                    // IndexError: `redirect_urls[0]` of an empty list
    | MissingRedirectUrl                // AttributeError: `None.scheme`
    | InvalidRedirectPort               // the formatted URL does not parse as an http URL
    | MissingCallbackKey(key: string)   // KeyError inside the callback handler
    | AuthenticationFailed(message: string)
    | StateMismatch
    | MissingTokenData                  // AttributeError: `None.refresh_token`
    | TokenRequestFailed(status: int)   // RuntimeError: token endpoint did not answer 201

  /** Python truthiness of an optional port: `None` and `0` are falsy. */
  predicate TruthyPort(p: Option<int>)
  {
    p.Some? && p.value != 0
  }

  /** A port pydantic accepts in the text of an http URL. */
  predicate PortInRange(p: int)
  {
    0 <= p <= 65535
  }

  /**
   * The Code grant's redirect: the first configured URL when none is given,
   * otherwise the given URL, which must be one of the configured ones.
   */
  function CodeRedirect(urls: seq<Url>, redirectUrl: Option<Url>): (r: Result<Url, ServiceError>)
    ensures r.Ok? ==> r.value in urls
    ensures redirectUrl.None? ==> (r.Ok? <==> |urls| > 0) && (r.Ok? ==> r.value == urls[0])
    ensures redirectUrl.None? && r.Err? ==> r.error == NoRedirectUrls
    ensures redirectUrl.Some? ==> (r.Ok? <==> redirectUrl.value in urls) && (r.Ok? ==> r.value == redirectUrl.value)
    ensures redirectUrl.Some? && r.Err? ==> r.error == RedirectNotAllowed
  {
    if redirectUrl.None? then
      if |urls| == 0 then Err(NoRedirectUrls) else Ok(urls[0])
    else if redirectUrl.value !in urls then Err(RedirectNotAllowed)
    else Ok(redirectUrl.value)
  }

  /**
   * The PKCE grant's redirect: with neither URL nor port, the first configured
   * URL's scheme, host and path around the random port; otherwise the given
   * URL's scheme, host and path around the given port, with no allow-list.
   */
  function PkceRedirect(urls: seq<Url>, redirectUrl: Option<Url>, redirectPort: Option<int>, randomPort: int): (r: Result<Url, ServiceError>)
    requires 1000 <= randomPort <= 9999
    ensures r.Ok? ==> r.value.port.Some? && PortInRange(r.value.port.value)
    ensures redirectUrl.None? && !TruthyPort(redirectPort) ==>
      (r.Ok? <==> |urls| > 0) &&
      (r.Ok? ==> r.value == Url(urls[0].scheme, urls[0].host, Some(randomPort), urls[0].path))
    ensures redirectUrl.None? && TruthyPort(redirectPort) ==> r == Err(MissingRedirectUrl)
    ensures redirectUrl.Some? && redirectPort.None? ==> r == Err(InvalidRedirectPort)
    ensures redirectUrl.Some? && redirectPort.Some? ==>
      (r.Ok? <==> PortInRange(redirectPort.value)) &&
      (r.Ok? ==> r.value == Url(redirectUrl.value.scheme, redirectUrl.value.host, redirectPort, redirectUrl.value.path))
  {
    if redirectUrl.None? && !TruthyPort(redirectPort) then
      if |urls| == 0 then Err(NoRedirectUrls)
      else Ok(Url(urls[0].scheme, urls[0].host, Some(randomPort), urls[0].path))
    else if redirectUrl.None? then Err(MissingRedirectUrl)
    else if redirectPort.None? || !PortInRange(redirectPort.value) then Err(InvalidRedirectPort)
    else Ok(Url(redirectUrl.value.scheme, redirectUrl.value.host, redirectPort, redirectUrl.value.path))
  }

  /** The redirect URL `login` settles on for the configured grant. */
  function ResolveRedirect(config: AppConfig, redirectUrl: Option<Url>, redirectPort: Option<int>, randomPort: int): (r: Result<Url, ServiceError>)
    requires 1000 <= randomPort <= 9999
    ensures config.grantType == Code && r.Ok? ==> r.value in config.redirectUrls
    ensures config.grantType == Pkce && r.Ok? ==> r.value.port.Some? && PortInRange(r.value.port.value)
  {
    match config.grantType
    case Code => CodeRedirect(config.redirectUrls, redirectUrl)
    case Pkce => PkceRedirect(config.redirectUrls, redirectUrl, redirectPort, randomPort)
  }

  /** The PKCE grant lets a caller-supplied redirect through whether or not it is configured. */
  lemma PkceIgnoresAllowList(config: AppConfig, url: Url, port: int, randomPort: int)
    requires config.grantType == Pkce && 1000 <= randomPort <= 9999 && PortInRange(port)
    ensures ResolveRedirect(config, Some(url), Some(port), randomPort) == Ok(Url(url.scheme, url.host, Some(port), url.path))
  {
  }

  /** An optional string as a parameter value; `None` stays in the dict. */
  function TextOrNull(s: Option<string>): Value
  {
    if s.Some? then Text(s.value) else Null
  }

  function LinkOrNull(u: Option<Url>): Value
  {
    if u.Some? then Link(u.value) else Null
  }

  function BytesOrNull(b: Option<seq<byte>>): Value
  {
    if b.Some? then Bytes(b.value) else Null
  }

  /** The four parameters every authorization request carries. */
  function AuthBase(config: AppConfig, state: string, redirect: Url): Params<Key>
  {
    [(ResponseType, Text("code")), (ClientId, Text(config.clientId)), (State, Text(state)), (RedirectUri, Link(redirect))]
  }

  /** What the grant adds to the authorization request. */
  function AuthExtras(config: AppConfig, challenge: seq<byte>): Params<Key>
  {
    match config.grantType
    case Pkce => [(CodeChallenge, Bytes(challenge)), (CodeChallengeMethod, Text("S256"))]
    case Code => [(ClientSecret, TextOrNull(config.clientSecret))]
  }

  /** `auth_request_query_params` after the grant's `update`. */
  function AuthRequestParams(config: AppConfig, state: string, redirect: Url, challenge: seq<byte>): (p: Params<Key>)
  {
    Update(AuthBase(config, state, redirect), AuthExtras(config, challenge))
  }

  /**
   * The authorization request holds the four common parameters followed by
   * exactly the grant's extras, in that order.
   */
  lemma AuthRequestParamsContents(config: AppConfig, state: string, redirect: Url, challenge: seq<byte>)
    ensures AuthRequestParams(config, state, redirect, challenge) ==
      [(ResponseType, Text("code")), (ClientId, Text(config.clientId)), (State, Text(state)), (RedirectUri, Link(redirect))] +
      (if config.grantType == Pkce
       then [(CodeChallenge, Bytes(challenge)), (CodeChallengeMethod, Text("S256"))]
       else [(ClientSecret, TextOrNull(config.clientSecret))])
  {
    UpdateAppends(AuthBase(config, state, redirect), AuthExtras(config, challenge));
  }

  /** Neither grant's authorization request carries the other grant's extras. */
  lemma AuthExtrasExclusive(config: AppConfig, state: string, redirect: Url, challenge: seq<byte>)
    ensures config.grantType == Pkce ==> !HasKey(AuthRequestParams(config, state, redirect, challenge), ClientSecret)
    ensures config.grantType == Code ==> !HasKey(AuthRequestParams(config, state, redirect, challenge), CodeChallenge)
    ensures config.grantType == Code ==> !HasKey(AuthRequestParams(config, state, redirect, challenge), CodeChallengeMethod)
  {
    AuthRequestParamsContents(config, state, redirect, challenge);
  }

  /** The four items of a code exchange. */
  function ExchangeBase(config: AppConfig, authCode: string, redirect: Option<Url>): Params<Key>
  {
    [(Grant, Text("authorization_code")), (AuthCode, Text(authCode)), (RedirectUri, LinkOrNull(redirect)), (ClientId, Text(config.clientId))]
  }

  /** What the grant adds to a code exchange. */
  function ExchangeExtras(config: AppConfig, verifier: Option<seq<byte>>): Params<Key>
  {
    match config.grantType
    case Code => [(ClientSecret, TextOrNull(config.clientSecret))]
    case Pkce => [(CodeVerifier, BytesOrNull(verifier))]
  }

  /** The two items of a refresh. */
  function RefreshBase(tokenData: AuthTokenData): Params<Key>
  {
    [(Grant, Text("refresh_token")), (RefreshToken, Text(tokenData.refreshToken))]
  }

  /** What the grant adds to a refresh. */
  function RefreshExtras(config: AppConfig, redirect: Option<Url>, verifier: Option<seq<byte>>): Params<Key>
  {
    match config.grantType
    case Code => [(RedirectUri, LinkOrNull(redirect)), (ClientId, Text(config.clientId)), (ClientSecret, TextOrNull(config.clientSecret))]
    case Pkce => [(CodeVerifier, BytesOrNull(verifier))]
  }

  /**
   * `token_request_params` of `exercise_authorization`: starting from `{}`,
   * a truthy code is exchanged, otherwise the refresh token of the current
   * token data is, which fails when there is none.
   */
  function TokenRequestParams(config: AppConfig, authCode: Option<string>, redirect: Option<Url>, verifier: Option<seq<byte>>, tokenData: Option<AuthTokenData>): (r: Result<Params<Key>, ServiceError>)
    ensures r.Err? <==> !Truthy(authCode) && tokenData.None?
    ensures r.Err? ==> r.error == MissingTokenData
  {
    if Truthy(authCode) then Ok(Update(Update([], ExchangeBase(config, authCode.value, redirect)), ExchangeExtras(config, verifier)))
    else if tokenData.None? then Err(MissingTokenData)
    else Ok(Update(Update([], RefreshBase(tokenData.value)), RefreshExtras(config, redirect, verifier)))
  }

  /** The exact parameters of a code exchange, for either grant. */
  lemma ExchangeParamsContents(config: AppConfig, authCode: string, redirect: Option<Url>, verifier: Option<seq<byte>>, tokenData: Option<AuthTokenData>)
    requires authCode != ""
    ensures TokenRequestParams(config, Some(authCode), redirect, verifier, tokenData) == Ok(
      [(Grant, Text("authorization_code")), (AuthCode, Text(authCode)), (RedirectUri, LinkOrNull(redirect)), (ClientId, Text(config.clientId))] +
      (if config.grantType == Code
       then [(ClientSecret, TextOrNull(config.clientSecret))]
       else [(CodeVerifier, BytesOrNull(verifier))]))
  {
    UpdateTwice(ExchangeBase(config, authCode, redirect), ExchangeExtras(config, verifier));
  }

  /**
   * The exact parameters of a refresh, taken for a falsy code (`None` or
   * `""`), and the failure when there is no token data to refresh.
   */
  lemma RefreshParamsContents(config: AppConfig, authCode: Option<string>, redirect: Option<Url>, verifier: Option<seq<byte>>, tokenData: Option<AuthTokenData>)
    requires !Truthy(authCode)
    ensures tokenData.None? ==> TokenRequestParams(config, authCode, redirect, verifier, tokenData) == Err(MissingTokenData)
    ensures tokenData.Some? ==> TokenRequestParams(config, authCode, redirect, verifier, tokenData) == Ok(
      [(Grant, Text("refresh_token")), (RefreshToken, Text(tokenData.value.refreshToken))] +
      (if config.grantType == Code
       then [(RedirectUri, LinkOrNull(redirect)), (ClientId, Text(config.clientId)), (ClientSecret, TextOrNull(config.clientSecret))]
       else [(CodeVerifier, BytesOrNull(verifier))]))
  {
    if tokenData.Some? {
      UpdateTwice(RefreshBase(tokenData.value), RefreshExtras(config, redirect, verifier));
    }
  }

  /**
   * The check after the callback: a non-empty error message fails first,
   * then a received state that differs from the one sent.
   */
  function CallbackVerdict(state: string, errorMessage: Option<string>, receivedState: Option<string>): (r: Result<(), ServiceError>)
    ensures r.Ok? <==> !Truthy(errorMessage) && receivedState == Some(state)
    ensures Truthy(errorMessage) ==> r == Err(AuthenticationFailed(errorMessage.value))
    ensures !Truthy(errorMessage) && receivedState != Some(state) ==> r == Err(StateMismatch)
  {
    if Truthy(errorMessage) then Err(AuthenticationFailed(errorMessage.value))
    else if Some(state) != receivedState then Err(StateMismatch)
    else Ok(())
  }

  /** The query arguments of a callback hold every key the handler reads. */
  predicate CallbackComplete(args: map<string, string>)
  {
    (if "error" in args then "error_description" in args else "code" in args) && "state" in args
  }

  /** The session object; the fields are the Python attributes of the same names. */
  class SaxoAuthService {
    var tokenData: Option<AuthTokenData>
    var authRedirectUrl: Option<Url>
    var authReceivedCallback: Option<bool>
    var authCode: Option<string>
    var authReceivedState: Option<string>
    var authErrorMessage: Option<string>
    var authCodeVerifier: Option<seq<byte>>
    const appConfig: AppConfig

    /** A service over an already validated configuration, with no session. */
    constructor (config: AppConfig)
      ensures appConfig == config
      ensures tokenData.None? && authRedirectUrl.None? && authReceivedCallback.None?
      ensures authCode.None? && authReceivedState.None? && authErrorMessage.None? && authCodeVerifier.None?
    {
      appConfig := config;
      tokenData := None;
      authRedirectUrl := None;
      authReceivedCallback := None;
      authCode := None;
      authReceivedState := None;
      authErrorMessage := None;
      authCodeVerifier := None;
    }

    /** `logged_in`: there is token data. */
    predicate LoggedIn()
      reads this
    {
      tokenData.Some?
    }

    /** `access_token`: the current access token, or `ValueError` when logged out. */
    function AccessToken(): (r: Result<string, ServiceError>)
      reads this
      ensures r.Ok? <==> LoggedIn()
      ensures r.Ok? ==> r.value == tokenData.value.accessToken
      ensures r.Err? ==> r.error == NotLoggedIn
    {
      if tokenData.Some? then Ok(tokenData.value.accessToken) else Err(NotLoggedIn)
    }

    /**
     * The steps of `login` up to opening the browser: resolve and store the
     * redirect, and for PKCE derive and store the verifier. A redirect that
     * cannot be resolved raises before anything is stored.
     */
    method BeginLogin(redirectUrl: Option<Url>, redirectPort: Option<int>, randomPort: int, state: string, randomBytes: seq<byte>, sha256: Pkce.Hash)
      returns (r: Result<Params<Key>, ServiceError>)
      requires 1000 <= randomPort <= 9999 && |randomBytes| == 64
      modifies this`authRedirectUrl, this`authCodeVerifier
      ensures ResolveRedirect(appConfig, redirectUrl, redirectPort, randomPort).Err? ==>
        r == Err(ResolveRedirect(appConfig, redirectUrl, redirectPort, randomPort).error) &&
        authRedirectUrl == old(authRedirectUrl) && authCodeVerifier == old(authCodeVerifier)
      ensures ResolveRedirect(appConfig, redirectUrl, redirectPort, randomPort).Ok? ==>
        var redirect := ResolveRedirect(appConfig, redirectUrl, redirectPort, randomPort).value;
        var verifier := Pkce.CodeVerifier(randomBytes);
        && authRedirectUrl == Some(redirect)
        && authCodeVerifier == (if appConfig.grantType == Pkce then Some(verifier) else old(authCodeVerifier))
        && r == Ok(AuthRequestParams(appConfig, state, redirect, Pkce.CodeChallenge(sha256, verifier)))
    {
      var redirect := ResolveRedirect(appConfig, redirectUrl, redirectPort, randomPort);
      if redirect.Err? {
        return Err(redirect.error);
      }
      authRedirectUrl := Some(redirect.value);
      var challenge: seq<byte> := [];
      if appConfig.grantType == Pkce {
        var verifier := Pkce.CodeVerifier(randomBytes);
        challenge := Pkce.CodeChallenge(sha256, verifier);
        authCodeVerifier := Some(verifier);
      }
      assert AuthExtras(appConfig, challenge) == AuthExtras(appConfig, Pkce.CodeChallenge(sha256, Pkce.CodeVerifier(randomBytes)));
      r := Ok(AuthRequestParams(appConfig, state, redirect.value, challenge));
    }

    /**
     * `handle_callback`: clears the flag and the three callback fields, then
     * records the error or the code, then the state, and last sets the flag.
     * A missing key aborts the handler where it is read.
     */
    method HandleCallback(args: map<string, string>) returns (r: Result<(), ServiceError>)
      modifies this`authReceivedCallback, this`authCode, this`authReceivedState, this`authErrorMessage
      ensures r.Ok? <==> CallbackComplete(args)
      ensures authReceivedCallback == Some(CallbackComplete(args))
      ensures authErrorMessage == (if "error" in args && "error_description" in args then Some(args["error"] + ": " + args["error_description"]) else None)
      ensures authCode == (if "error" !in args && "code" in args then Some(args["code"]) else None)
      ensures authReceivedState == (if CallbackComplete(args) then Some(args["state"]) else None)
      ensures r.Err? ==> r.error == MissingCallbackKey(
        if "error" in args && "error_description" !in args then "error_description"
        else if "error" !in args && "code" !in args then "code" else "state")
    {
      authReceivedCallback := Some(false);
      authCode := None;
      authReceivedState := None;
      authErrorMessage := None;
      if "error" in args {
        if "error_description" !in args {
          return Err(MissingCallbackKey("error_description"));
        }
        authErrorMessage := Some(args["error"] + ": " + args["error_description"]);
      } else {
        if "code" !in args {
          return Err(MissingCallbackKey("code"));
        }
        authCode := Some(args["code"]);
      }
      if "state" !in args {
        return Err(MissingCallbackKey("state"));
      }
      authReceivedState := Some(args["state"]);
      authReceivedCallback := Some(true);
      r := Ok(());
    }

    /**
     * `exercise_authorization` with the token endpoint's reply passed in:
     * builds the request (failing before any request without token data to
     * refresh) and then applies the reply.
     */
    method ExerciseAuthorization(authCode': Option<string>, status: int, response: AuthTokenData) returns (r: Result<Params<Key>, ServiceError>)
      modifies this`tokenData
      ensures var request := TokenRequestParams(appConfig, authCode', authRedirectUrl, authCodeVerifier, old(tokenData));
        && (request.Err? ==> r == request && tokenData == old(tokenData))
        && (request.Ok? && status == 201 ==> r == request && tokenData == Some(response))
        && (request.Ok? && status != 201 ==> r == Err(TokenRequestFailed(status)) && tokenData == old(tokenData))
    {
      var request := TokenRequestParams(appConfig, authCode', authRedirectUrl, authCodeVerifier, tokenData);
      if request.Err? {
        return request;
      }
      var applied := ApplyTokenResponse(status, response);
      if applied.Err? {
        return Err(applied.error);
      }
      r := request;
    }

    /** The reply to a token request: only status 201 replaces the token data. */
    method ApplyTokenResponse(status: int, response: AuthTokenData) returns (r: Result<(), ServiceError>)
      modifies this`tokenData
      ensures status == 201 ==> r.Ok? && tokenData == Some(response)
      ensures status != 201 ==> r == Err(TokenRequestFailed(status)) && tokenData == old(tokenData)
    {
      if status == 201 {
        tokenData := Some(response);
        r := Ok(());
      } else {
        r := Err(TokenRequestFailed(status));
      }
    }

    /**
     * The steps of `login` after the wait loop, which ends only once the flag
     * is set: the error and state checks, then the code exchange.
     */
    method CompleteLogin(state: string, status: int, response: AuthTokenData) returns (r: Result<Params<Key>, ServiceError>)
      requires authReceivedCallback == Some(true)
      modifies this`tokenData
      ensures CallbackVerdict(state, authErrorMessage, authReceivedState).Err? ==>
        r == Err(CallbackVerdict(state, authErrorMessage, authReceivedState).error) && tokenData == old(tokenData)
      ensures CallbackVerdict(state, authErrorMessage, authReceivedState).Ok? ==>
        var request := TokenRequestParams(appConfig, authCode, authRedirectUrl, authCodeVerifier, old(tokenData));
        && (request.Err? ==> r == request && tokenData == old(tokenData))
        && (request.Ok? && status == 201 ==> r == request && tokenData == Some(response))
        && (request.Ok? && status != 201 ==> r == Err(TokenRequestFailed(status)) && tokenData == old(tokenData))
    {
      var verdict := CallbackVerdict(state, authErrorMessage, authReceivedState);
      if verdict.Err? {
        return Err(verdict.error);
      }
      r := ExerciseAuthorization(authCode, status, response);
    }

    /**
     * The wait loop of `login`. Nothing in `login` clears the flag, so a flag
     * still set by an earlier callback ends the loop at once and leaves that
     * callback's fields in place. Otherwise the loop lasts until a handler
     * call completes, modelled as that one call.
     */
    method AwaitCallback(args: map<string, string>)
      requires authReceivedCallback == Some(true) || CallbackComplete(args)
      modifies this`authReceivedCallback, this`authCode, this`authReceivedState, this`authErrorMessage
      ensures authReceivedCallback == Some(true)
      ensures old(authReceivedCallback) == Some(true) ==>
        authCode == old(authCode) && authReceivedState == old(authReceivedState) && authErrorMessage == old(authErrorMessage)
      ensures old(authReceivedCallback) != Some(true) ==>
        && authErrorMessage == (if "error" in args then Some(args["error"] + ": " + args["error_description"]) else None)
        && authCode == (if "error" !in args then Some(args["code"]) else None)
        && authReceivedState == Some(args["state"])
    {
      if authReceivedCallback != Some(true) {
        var handled := HandleCallback(args);
      }
    }

    /**
     * `login`: resolve the redirect and build the request, wait for the
     * callback (`args` is the handler call that ends a wait which is not
     * skipped), check error and state, and exchange the code.
     */
    method Login(redirectUrl: Option<Url>, redirectPort: Option<int>, randomPort: int, state: string, randomBytes: seq<byte>, sha256: Pkce.Hash,
                 args: map<string, string>, status: int, response: AuthTokenData) returns (r: Result<Params<Key>, ServiceError>)
      requires 1000 <= randomPort <= 9999 && |randomBytes| == 64
      requires authReceivedCallback == Some(true) || CallbackComplete(args)
      modifies this
      ensures ResolveRedirect(appConfig, redirectUrl, redirectPort, randomPort).Err? ==>
        r == Err(ResolveRedirect(appConfig, redirectUrl, redirectPort, randomPort).error) && unchanged(this)
      ensures ResolveRedirect(appConfig, redirectUrl, redirectPort, randomPort).Ok? ==>
        && authRedirectUrl == Some(ResolveRedirect(appConfig, redirectUrl, redirectPort, randomPort).value)
        && authCodeVerifier == (if appConfig.grantType == Pkce then Some(Pkce.CodeVerifier(randomBytes)) else old(authCodeVerifier))
        && authReceivedCallback == Some(true)
      ensures ResolveRedirect(appConfig, redirectUrl, redirectPort, randomPort).Ok? && old(authReceivedCallback) == Some(true) ==>
        authCode == old(authCode) && authReceivedState == old(authReceivedState) && authErrorMessage == old(authErrorMessage)
      ensures ResolveRedirect(appConfig, redirectUrl, redirectPort, randomPort).Ok? && old(authReceivedCallback) != Some(true) ==>
        && authErrorMessage == (if "error" in args then Some(args["error"] + ": " + args["error_description"]) else None)
        && authCode == (if "error" !in args then Some(args["code"]) else None)
        && authReceivedState == Some(args["state"])
      ensures ResolveRedirect(appConfig, redirectUrl, redirectPort, randomPort).Ok? ==>
        var verdict := CallbackVerdict(state, authErrorMessage, authReceivedState);
        var request := TokenRequestParams(appConfig, authCode, authRedirectUrl, authCodeVerifier, old(tokenData));
        && (verdict.Err? ==> r == Err(verdict.error) && tokenData == old(tokenData))
        && (verdict.Ok? && request.Err? ==> r == request && tokenData == old(tokenData))
        && (verdict.Ok? && request.Ok? && status == 201 ==> r == request && tokenData == Some(response))
        && (verdict.Ok? && request.Ok? && status != 201 ==> r == Err(TokenRequestFailed(status)) && tokenData == old(tokenData))
      ensures r.Ok? ==> status == 201 && tokenData == Some(response) && authReceivedState == Some(state)
      ensures ResolveRedirect(appConfig, redirectUrl, redirectPort, randomPort).Ok? && old(authReceivedCallback) != Some(true) && "error" in args ==>
        r == Err(AuthenticationFailed(args["error"] + ": " + args["error_description"])) && tokenData == old(tokenData)
      ensures ResolveRedirect(appConfig, redirectUrl, redirectPort, randomPort).Ok? && old(authReceivedCallback) != Some(true) && "error" !in args && args["state"] != state ==>
        r == Err(StateMismatch) && tokenData == old(tokenData)
    {
      var authRequest := BeginLogin(redirectUrl, redirectPort, randomPort, state, randomBytes, sha256);
      if authRequest.Err? {
        return Err(authRequest.error);
      }
      AwaitCallback(args);
      r := CompleteLogin(state, status, response);
    }

    /**
     * `login` as evidently intended: each login waits for a callback of its
     * own, because the flag is cleared before the wait.
     */
    method LoginIntended(redirectUrl: Option<Url>, redirectPort: Option<int>, randomPort: int, state: string, randomBytes: seq<byte>, sha256: Pkce.Hash,
                         args: map<string, string>, status: int, response: AuthTokenData) returns (r: Result<Params<Key>, ServiceError>)
      requires 1000 <= randomPort <= 9999 && |randomBytes| == 64 && CallbackComplete(args)
      modifies this
      ensures ResolveRedirect(appConfig, redirectUrl, redirectPort, randomPort).Err? ==>
        r == Err(ResolveRedirect(appConfig, redirectUrl, redirectPort, randomPort).error) && unchanged(this)
      ensures ResolveRedirect(appConfig, redirectUrl, redirectPort, randomPort).Ok? ==>
        && authRedirectUrl == Some(ResolveRedirect(appConfig, redirectUrl, redirectPort, randomPort).value)
        && authCodeVerifier == (if appConfig.grantType == Pkce then Some(Pkce.CodeVerifier(randomBytes)) else old(authCodeVerifier))
        && authReceivedCallback == Some(true)
      ensures ResolveRedirect(appConfig, redirectUrl, redirectPort, randomPort).Ok? ==>
        && authErrorMessage == (if "error" in args then Some(args["error"] + ": " + args["error_description"]) else None)
        && authCode == (if "error" !in args then Some(args["code"]) else None)
        && authReceivedState == Some(args["state"])
      ensures ResolveRedirect(appConfig, redirectUrl, redirectPort, randomPort).Ok? ==>
        var verdict := CallbackVerdict(state, authErrorMessage, authReceivedState);
        var request := TokenRequestParams(appConfig, authCode, authRedirectUrl, authCodeVerifier, old(tokenData));
        && (verdict.Err? ==> r == Err(verdict.error) && tokenData == old(tokenData))
        && (verdict.Ok? && request.Err? ==> r == request && tokenData == old(tokenData))
        && (verdict.Ok? && request.Ok? && status == 201 ==> r == request && tokenData == Some(response))
        && (verdict.Ok? && request.Ok? && status != 201 ==> r == Err(TokenRequestFailed(status)) && tokenData == old(tokenData))
      ensures ResolveRedirect(appConfig, redirectUrl, redirectPort, randomPort).Ok? && "error" !in args && args["state"] == state
              && args["code"] != "" && status == 201 ==>
        r.Ok? && tokenData == Some(response)
      ensures r.Ok? ==> status == 201 && tokenData == Some(response) && authReceivedState == Some(state)
    {
      var authRequest := BeginLogin(redirectUrl, redirectPort, randomPort, state, randomBytes, sha256);
      if authRequest.Err? {
        return Err(authRequest.error);
      }
      authReceivedCallback := None;
      AwaitCallback(args);
      r := CompleteLogin(state, status, response);
    }

    /** `refresh`: a logged-out session raises and sends nothing. */
    method Refresh(status: int, response: AuthTokenData) returns (r: Result<Params<Key>, ServiceError>)
      modifies this`tokenData
      ensures !old(LoggedIn()) ==> r == Err(NotLoggedIn) && tokenData == old(tokenData)
      ensures old(LoggedIn()) ==> LoggedIn()
      ensures old(LoggedIn()) && status == 201 ==> r == TokenRequestParams(appConfig, None, authRedirectUrl, authCodeVerifier, old(tokenData)) && tokenData == Some(response)
      ensures old(LoggedIn()) && status != 201 ==> r == Err(TokenRequestFailed(status)) && tokenData == old(tokenData)
    {
      if !LoggedIn() {
        return Err(NotLoggedIn);
      }
      RefreshParamsContents(appConfig, None, authRedirectUrl, authCodeVerifier, tokenData);
      r := ExerciseAuthorization(None, status, response);
    }

    /** `logout`: forgets the session and the callback, keeps the verifier. */
    method Logout()
      modifies this`tokenData, this`authRedirectUrl, this`authReceivedCallback, this`authCode, this`authReceivedState, this`authErrorMessage
      ensures !LoggedIn()
      ensures tokenData.None? && authRedirectUrl.None? && authReceivedCallback.None?
      ensures authCode.None? && authReceivedState.None? && authErrorMessage.None?
    {
      tokenData := None;
      authRedirectUrl := None;
      authReceivedCallback := None;
      authCode := None;
      authReceivedState := None;
      authErrorMessage := None;
    }
  }

  /**
   * Two logins on one session with no logout between them: the first
   * succeeds; the second finds the flag still set, skips its wait, and fails
   * the state check against the first callback's state, whatever its own
   * callback would have brought.
   */
  method RepeatedLoginFails(config: AppConfig, randomBytes: seq<byte>, sha256: Pkce.Hash, response: AuthTokenData,
                            state1: string, code1: string, state2: string, args2: map<string, string>)
    returns (first: Result<Params<Key>, ServiceError>, second: Result<Params<Key>, ServiceError>)
    requires |config.redirectUrls| > 0 && |randomBytes| == 64 && code1 != "" && state1 != state2
    ensures first.Ok? && second == Err(StateMismatch)
  {
    var service := new SaxoAuthService(config);
    first := service.Login(None, None, 1000, state1, randomBytes, sha256, map["code" := code1, "state" := state1], 201, response);
    second := service.Login(None, None, 1000, state2, randomBytes, sha256, args2, 201, response);
  }

  /** With the flag cleared before each wait, the second login succeeds on its own callback. */
  method RepeatedLoginIntended(config: AppConfig, randomBytes: seq<byte>, sha256: Pkce.Hash, response: AuthTokenData,
                               state1: string, code1: string, state2: string, code2: string)
    returns (first: Result<Params<Key>, ServiceError>, second: Result<Params<Key>, ServiceError>)
    requires |config.redirectUrls| > 0 && |randomBytes| == 64 && code1 != "" && code2 != ""
    ensures first.Ok? && second.Ok?
  {
    var service := new SaxoAuthService(config);
    first := service.LoginIntended(None, None, 1000, state1, randomBytes, sha256, map["code" := code1, "state" := state1], 201, response);
    second := service.LoginIntended(None, None, 1000, state2, randomBytes, sha256, map["code" := code2, "state" := state2], 201, response);
  }
}

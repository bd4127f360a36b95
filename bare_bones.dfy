/**
 * The two bare-bones sample scripts, one for the Code grant and one for
 * PKCE. Each keeps the callback's results in module globals, checks the
 * received state before the error message, and sends literal parameter
 * dicts: an authorization request, a code exchange and one refresh.
 */
module BareBones {
  import opened Common
  import Config
  import Pkce
  import AuthService

  /** What `urlparse` yields for the first configured redirect URL, in the parts the scripts use. */
  datatype SplitUrl = SplitUrl(scheme: string, netloc: string, path: string)

  /** Why a script stops early: `exit(-1)`, or a `KeyError` inside the callback handler. */
  datatype Stop =
    | MissingKey(key: string)
    | StateMismatch
    | ErrorReceived(message: string)
    | TokenRequestFailed(status: int)
    | RefreshFailed(status: int)

  /** A decimal digit character. */
  function DigitChar(d: nat): char
    requires d < 10
  {
    ('0' as int + d) as char
  }

  predicate IsDigit(c: char)
  {
    '0' <= c <= '9'
  }

  /** `str(n)` for a natural number. */
  function DecimalString(n: nat): string
    decreases n
  {
    if n < 10 then [DigitChar(n)] else DecimalString(n / 10) + [DigitChar(n % 10)]
  }

  /** `int(s)` for a string of decimal digits: the inverse of `DecimalString`. */
  function DecimalValue(s: string): nat
    requires forall i :: 0 <= i < |s| ==> IsDigit(s[i])
    decreases |s|
  {
    if s == [] then 0
    else
      assert IsDigit(s[|s| - 1]);
      DecimalValue(s[..|s| - 1]) * 10 + (s[|s| - 1] as int - '0' as int)
  }

  /** `str(n)` consists of digits and reads back as `n`. */
  lemma {:induction false} DecimalRoundTrip(n: nat)
    ensures forall i :: 0 <= i < |DecimalString(n)| ==> IsDigit(DecimalString(n)[i])
    ensures DecimalValue(DecimalString(n)) == n
    decreases n
  {
    if n >= 10 {
      DecimalRoundTrip(n / 10);
      var s := DecimalString(n);
      assert s[..|s| - 1] == DecimalString(n / 10);
    }
  }

  /** The PKCE script's `port = str(randint(1000, 9999))`: four digits that read back as the random number. */
  lemma PortIsFourDigits(n: nat)
    requires 1000 <= n <= 9999
    ensures |DecimalString(n)| == 4
    ensures forall i :: 0 <= i < 4 ==> IsDigit(DecimalString(n)[i])
    ensures DecimalValue(DecimalString(n)) == n
  {
    DecimalRoundTrip(n);
    assert |DecimalString(n / 1000)| == 1;
    assert |DecimalString(n / 100)| == 2;
    assert |DecimalString(n / 10)| == 3;
  }

  /** `ad_hoc_redirect`: scheme, `://`, netloc (host and any port it already has), `:`, the random port, path. */
  function AdHocRedirect(r: SplitUrl, port: string): string
  {
    r.scheme + "://" + r.netloc + ":" + port + r.path
  }

  /**
   * The redirect keeps the configured netloc whole and puts the four port
   * digits between it and the path.
   */
  lemma AdHocRedirectLayout(r: SplitUrl, n: nat)
    requires 1000 <= n <= 9999
    ensures var u, k := AdHocRedirect(r, DecimalString(n)), |r.scheme| + 3 + |r.netloc|;
      && |u| == k + 5 + |r.path|
      && u[..k] == r.scheme + "://" + r.netloc
      && u[k] == ':'
      && u[k + 1..k + 5] == DecimalString(n)
      && u[k + 5..] == r.path
  {
    PortIsFourDigits(n);
    var p := DecimalString(n);
    var u, k := AdHocRedirect(r, p), |r.scheme| + 3 + |r.netloc|;
    assert u == (r.scheme + "://" + r.netloc) + [':'] + p + r.path;
  }

  /** The path the PKCE script's callback handler is registered at, whatever the configured redirect. */
  function PkceCallbackRoute(): string
  {
    "/callback"
  }

  /**
   * The PKCE script registers its handler at `/callback` whatever the
   * configured redirect path, so the path the redirect carries reaches the
   * handler exactly when it is `/callback`. (The Code script registers its
   * handler at the configured path itself.)
   */
  lemma CallbackRoutes(r: SplitUrl, n: nat)
    requires 1000 <= n <= 9999
    ensures PkceCallbackRoute() == AdHocRedirect(r, DecimalString(n))[|AdHocRedirect(r, DecimalString(n))| - |r.path|..] <==> r.path == "/callback"
  {
    AdHocRedirectLayout(r, n);
  }

  /** The module globals `received_callback`, `code`, `error_message` and `received_state`. */
  class ScriptGlobals {
    var receivedCallback: bool
    var code: Option<string>
    var errorMessage: Option<string>
    var receivedState: Option<string>

    /** `received_callback = False`; the other globals are not yet bound. */
    constructor ()
      ensures !receivedCallback && code.None? && errorMessage.None? && receivedState.None?
    {
      receivedCallback := false;
      code := None;
      errorMessage := None;
      receivedState := None;
    }

    /**
     * `handle_callback` of both scripts: clears the error and the code, then
     * records one of them, then the state, then sets the flag. Unlike the
     * service it leaves the state and the flag alone until it gets there,
     * so a handler that aborts keeps those from an earlier callback.
     */
    method HandleCallback(args: map<string, string>) returns (r: Result<(), Stop>)
      modifies this
      ensures r.Ok? <==> AuthService.CallbackComplete(args)
      ensures errorMessage == (if "error" in args && "error_description" in args then Some(args["error"] + ": " + args["error_description"]) else None)
      ensures code == (if "error" !in args && "code" in args then Some(args["code"]) else None)
      ensures receivedState == (if AuthService.CallbackComplete(args) then Some(args["state"]) else old(receivedState))
      ensures receivedCallback == (AuthService.CallbackComplete(args) || old(receivedCallback))
    {
      errorMessage := None;
      code := None;
      if "error" in args {
        if "error_description" !in args {
          return Err(MissingKey("error_description"));
        }
        errorMessage := Some(args["error"] + ": " + args["error_description"]);
      } else {
        if "code" !in args {
          return Err(MissingKey("code"));
        }
        code := Some(args["code"]);
      }
      if "state" !in args {
        return Err(MissingKey("state"));
      }
      receivedState := Some(args["state"]);
      receivedCallback := true;
      r := Ok(());
    }
  }

  /**
   * A complete callback followed by one that has a code but lacks `state`:
   * the globals then hold the flag set and the first callback's state next to
   * the second callback's code.
   */
  method StaleStateAfterAbortedCallback(state: string, code: string, args: map<string, string>)
    returns (received: Option<string>, flag: bool, codeSeen: Option<string>)
    requires "error" !in args && "code" in args && "state" !in args
    ensures received == Some(state) && flag && codeSeen == Some(args["code"])
  {
    var g := new ScriptGlobals();
    var first := g.HandleCallback(map["code" := code, "state" := state]);
    var second := g.HandleCallback(args);
    received, flag, codeSeen := g.receivedState, g.receivedCallback, g.code;
  }

  /** The scripts' check after the wait: the state first, then the error message. */
  function ScriptVerdict(state: string, receivedState: Option<string>, errorMessage: Option<string>): (r: Result<(), Stop>)
    ensures r.Ok? <==> receivedState == Some(state) && !Truthy(errorMessage)
    ensures receivedState != Some(state) ==> r == Err(StateMismatch)
    ensures receivedState == Some(state) && Truthy(errorMessage) ==> r == Err(ErrorReceived(errorMessage.value))
  {
    if Some(state) != receivedState then Err(StateMismatch)
    else if Truthy(errorMessage) then Err(ErrorReceived(errorMessage.value))
    else Ok(())
  }

  /**
   * The scripts and the service accept the same callbacks, but on a callback
   * that carries both an error and a wrong state they report different causes.
   */
  lemma VerdictOrder(state: string, receivedState: Option<string>, errorMessage: Option<string>)
    ensures ScriptVerdict(state, receivedState, errorMessage).Ok? <==> AuthService.CallbackVerdict(state, errorMessage, receivedState).Ok?
    ensures Truthy(errorMessage) && receivedState != Some(state) ==>
      ScriptVerdict(state, receivedState, errorMessage) == Err(StateMismatch) &&
      AuthService.CallbackVerdict(state, errorMessage, receivedState) == Err(AuthService.AuthenticationFailed(errorMessage.value))
  {
  }

  /** The PKCE script's authorization request. */
  function PkceAuthParams(appKey: string, state: string, redirect: string, sha256: Pkce.Hash, verifier: seq<byte>): Params<Key>
  {
    [(ResponseType, Text("code")), (ClientId, Text(appKey)), (State, Text(state)), (RedirectUri, Text(redirect)),
     (CodeChallenge, Bytes(Pkce.CodeChallenge(sha256, verifier))), (CodeChallengeMethod, Text("S256"))]
  }

  /** The PKCE script's code exchange. */
  function PkceTokenParams(appKey: string, code: Option<string>, redirect: string, verifier: seq<byte>): Params<Key>
  {
    [(Grant, Text("authorization_code")), (AuthCode, AuthService.TextOrNull(code)), (RedirectUri, Text(redirect)),
     (ClientId, Text(appKey)), (CodeVerifier, Bytes(verifier))]
  }

  /** The PKCE script's refresh. */
  function PkceRefreshParams(refreshToken: string, verifier: seq<byte>): Params<Key>
  {
    [(Grant, Text("refresh_token")), (RefreshToken, Text(refreshToken)), (CodeVerifier, Bytes(verifier))]
  }

  /** The Code script's authorization request. */
  function CodeAuthParams(appKey: string, appSecret: string, state: string, redirect: string): Params<Key>
  {
    [(ResponseType, Text("code")), (ClientId, Text(appKey)), (State, Text(state)), (RedirectUri, Text(redirect)), (ClientSecret, Text(appSecret))]
  }

  /** The Code script's code exchange. */
  function CodeTokenParams(appKey: string, appSecret: string, code: Option<string>, redirect: string): Params<Key>
  {
    [(Grant, Text("authorization_code")), (AuthCode, AuthService.TextOrNull(code)), (RedirectUri, Text(redirect)),
     (ClientId, Text(appKey)), (ClientSecret, Text(appSecret))]
  }

  /** The Code script's refresh. */
  function CodeRefreshParams(appKey: string, appSecret: string, refreshToken: string, redirect: string): Params<Key>
  {
    [(Grant, Text("refresh_token")), (RefreshToken, Text(refreshToken)), (RedirectUri, Text(redirect)),
     (ClientId, Text(appKey)), (ClientSecret, Text(appSecret))]
  }

  /**
   * Both scripts' authorization requests send the service's parameter names
   * for their grant, in the service's order.
   */
  lemma AuthRequestsMatchService(config: Config.AppConfig, state: string, redirect: Url, redirectText: string,
                                 appSecret: string, sha256: Pkce.Hash, verifier: seq<byte>)
    ensures config.grantType == Config.Code ==>
      Keys(AuthService.AuthRequestParams(config, state, redirect, [])) == Keys(CodeAuthParams(config.clientId, appSecret, state, redirectText))
    ensures config.grantType == Config.Pkce ==>
      Keys(AuthService.AuthRequestParams(config, state, redirect, Pkce.CodeChallenge(sha256, verifier)))
        == Keys(PkceAuthParams(config.clientId, state, redirectText, sha256, verifier))
  {
    AuthService.AuthRequestParamsContents(config, state, redirect, []);
    AuthService.AuthRequestParamsContents(config, state, redirect, Pkce.CodeChallenge(sha256, verifier));
    if config.grantType == Config.Code {
      var names := [ResponseType, ClientId, State, RedirectUri, ClientSecret];
      assert Keys(AuthService.AuthRequestParams(config, state, redirect, [])) == names;
      assert Keys(CodeAuthParams(config.clientId, appSecret, state, redirectText)) == names;
    } else {
      var names := [ResponseType, ClientId, State, RedirectUri, CodeChallenge, CodeChallengeMethod];
      assert Keys(AuthService.AuthRequestParams(config, state, redirect, Pkce.CodeChallenge(sha256, verifier))) == names;
      assert Keys(PkceAuthParams(config.clientId, state, redirectText, sha256, verifier)) == names;
    }
  }

  /** The PKCE script's authorization request carries the ad hoc redirect and the verifier's challenge. */
  lemma PkceAuthCarries(appKey: string, state: string, redirect: string, sha256: Pkce.Hash, verifier: seq<byte>)
    ensures Lookup(PkceAuthParams(appKey, state, redirect, sha256, verifier), RedirectUri) == Some(Text(redirect))
    ensures Lookup(PkceAuthParams(appKey, state, redirect, sha256, verifier), CodeChallenge) == Some(Bytes(Pkce.CodeChallenge(sha256, verifier)))
  {
    LookupAt(PkceAuthParams(appKey, state, redirect, sha256, verifier), 3);
    LookupAt(PkceAuthParams(appKey, state, redirect, sha256, verifier), 4);
  }

  /**
   * The PKCE script's code exchange carries the same ad hoc redirect again,
   * and the verifier whose challenge the authorization request sent.
   */
  lemma PkceExchangeCarries(appKey: string, code: Option<string>, redirect: string, verifier: seq<byte>)
    ensures Lookup(PkceTokenParams(appKey, code, redirect, verifier), RedirectUri) == Some(Text(redirect))
    ensures Lookup(PkceTokenParams(appKey, code, redirect, verifier), CodeVerifier) == Some(Bytes(verifier))
  {
    LookupAt(PkceTokenParams(appKey, code, redirect, verifier), 2);
    LookupAt(PkceTokenParams(appKey, code, redirect, verifier), 4);
  }

  /**
   * The PKCE script's refresh is exactly the service's PKCE refresh, and its
   * exchange sends the same names in the same order as the service's.
   */
  lemma PkceScriptMatchesService(config: Config.AppConfig, token: Config.AuthTokenData, redirect: Option<Url>, verifier: seq<byte>, code: string, adHoc: string)
    requires config.grantType == Config.Pkce && code != ""
    ensures AuthService.TokenRequestParams(config, None, redirect, Some(verifier), Some(token)) == Ok(PkceRefreshParams(token.refreshToken, verifier))
    ensures AuthService.TokenRequestParams(config, Some(code), redirect, Some(verifier), Some(token)).Ok?
    ensures Keys(AuthService.TokenRequestParams(config, Some(code), redirect, Some(verifier), Some(token)).value) == Keys(PkceTokenParams(config.clientId, Some(code), adHoc, verifier))
  {
    AuthService.RefreshParamsContents(config, None, redirect, Some(verifier), Some(token));
    AuthService.ExchangeParamsContents(config, code, redirect, Some(verifier), Some(token));
    var refresh: Params<Key> := [(Grant, Text("refresh_token")), (RefreshToken, Text(token.refreshToken))];
    assert refresh + [(CodeVerifier, AuthService.BytesOrNull(Some(verifier)))] == PkceRefreshParams(token.refreshToken, verifier);
    var names := [Grant, AuthCode, RedirectUri, ClientId, CodeVerifier];
    assert Keys(AuthService.TokenRequestParams(config, Some(code), redirect, Some(verifier), Some(token)).value) == names;
    assert Keys(PkceTokenParams(config.clientId, Some(code), adHoc, verifier)) == names;
  }

  /** The Code script's exchange sends the same names in the same order as the service's for the Code grant. */
  lemma CodeExchangeMatchesService(config: Config.AppConfig, token: Config.AuthTokenData, redirect: Option<Url>, code: string, appSecret: string, redirectText: string)
    requires config.grantType == Config.Code && code != ""
    ensures AuthService.TokenRequestParams(config, Some(code), redirect, None, Some(token)).Ok?
    ensures Keys(AuthService.TokenRequestParams(config, Some(code), redirect, None, Some(token)).value) == Keys(CodeTokenParams(config.clientId, appSecret, Some(code), redirectText))
  {
    AuthService.ExchangeParamsContents(config, code, redirect, None, Some(token));
    var names := [Grant, AuthCode, RedirectUri, ClientId, ClientSecret];
    assert Keys(AuthService.TokenRequestParams(config, Some(code), redirect, None, Some(token)).value) == names;
    assert Keys(CodeTokenParams(config.clientId, appSecret, Some(code), redirectText)) == names;
  }

  /** The Code script's refresh sends the same names in the same order as the service's for the Code grant. */
  lemma CodeRefreshMatchesService(config: Config.AppConfig, token: Config.AuthTokenData, redirect: Option<Url>, appSecret: string, redirectText: string)
    requires config.grantType == Config.Code
    ensures AuthService.TokenRequestParams(config, None, redirect, None, Some(token)).Ok?
    ensures Keys(AuthService.TokenRequestParams(config, None, redirect, None, Some(token)).value) == Keys(CodeRefreshParams(config.clientId, appSecret, token.refreshToken, redirectText))
  {
    AuthService.RefreshParamsContents(config, None, redirect, None, Some(token));
    var names := [Grant, RefreshToken, RedirectUri, ClientId, ClientSecret];
    assert Keys(AuthService.TokenRequestParams(config, None, redirect, None, Some(token)).value) == names;
    assert Keys(CodeRefreshParams(config.clientId, appSecret, token.refreshToken, redirectText)) == names;
  }

  /** The two scripts' refreshes differ: only the Code script identifies the client and the redirect. */
  lemma RefreshSetsDiffer(appKey: string, appSecret: string, refreshToken: string, redirect: string, verifier: seq<byte>)
    ensures HasKey(CodeRefreshParams(appKey, appSecret, refreshToken, redirect), ClientId)
    ensures HasKey(CodeRefreshParams(appKey, appSecret, refreshToken, redirect), RedirectUri)
    ensures !HasKey(PkceRefreshParams(refreshToken, verifier), ClientId)
    ensures !HasKey(PkceRefreshParams(refreshToken, verifier), RedirectUri)
    ensures !HasKey(CodeRefreshParams(appKey, appSecret, refreshToken, redirect), CodeVerifier)
  {
    assert CodeRefreshParams(appKey, appSecret, refreshToken, redirect)[3].0 == ClientId;
    assert CodeRefreshParams(appKey, appSecret, refreshToken, redirect)[2].0 == RedirectUri;
  }

  /** The requests a script sends after the callback, and why it stopped if it did. */
  datatype Run = Run(sent: seq<Params<Key>>, stop: Option<Stop>)

  /**
   * The Code script from the post-callback checks on, with the two token
   * replies passed in: the exchange, then (once it answers 201) the refresh
   * with the refresh token of that first reply.
   */
  function CodeScriptRun(appKey: string, appSecret: string, redirect: string, state: string,
                         receivedState: Option<string>, code: Option<string>, errorMessage: Option<string>,
                         tokenStatus: int, token: Config.AuthTokenData, refreshStatus: int): (r: Run)
    ensures |r.sent| <= 2
    ensures |r.sent| > 0 <==> ScriptVerdict(state, receivedState, errorMessage).Ok?
    ensures |r.sent| > 0 ==> r.sent[0] == CodeTokenParams(appKey, appSecret, code, redirect)
    ensures |r.sent| == 2 <==> |r.sent| > 0 && tokenStatus == 201
    ensures |r.sent| == 2 ==> r.sent[1] == CodeRefreshParams(appKey, appSecret, token.refreshToken, redirect)
    ensures r.stop.None? <==> |r.sent| == 2 && refreshStatus == 201
  {
    match ScriptVerdict(state, receivedState, errorMessage)
    case Err(e) => Run([], Some(e))
    case Ok(_) =>
      var exchange := CodeTokenParams(appKey, appSecret, code, redirect);
      if tokenStatus != 201 then Run([exchange], Some(TokenRequestFailed(tokenStatus)))
      else
        var refresh := CodeRefreshParams(appKey, appSecret, token.refreshToken, redirect);
        Run([exchange, refresh], if refreshStatus != 201 then Some(RefreshFailed(refreshStatus)) else None)
  }

  /** The PKCE script from the post-callback checks on, likewise. */
  function PkceScriptRun(appKey: string, redirect: string, verifier: seq<byte>, state: string,
                         receivedState: Option<string>, code: Option<string>, errorMessage: Option<string>,
                         tokenStatus: int, token: Config.AuthTokenData, refreshStatus: int): (r: Run)
    ensures |r.sent| <= 2
    ensures |r.sent| > 0 <==> ScriptVerdict(state, receivedState, errorMessage).Ok?
    ensures |r.sent| > 0 ==> r.sent[0] == PkceTokenParams(appKey, code, redirect, verifier)
    ensures |r.sent| == 2 <==> |r.sent| > 0 && tokenStatus == 201
    ensures |r.sent| == 2 ==> r.sent[1] == PkceRefreshParams(token.refreshToken, verifier)
    ensures r.stop.None? <==> |r.sent| == 2 && refreshStatus == 201
  {
    match ScriptVerdict(state, receivedState, errorMessage)
    case Err(e) => Run([], Some(e))
    case Ok(_) =>
      var exchange := PkceTokenParams(appKey, code, redirect, verifier);
      if tokenStatus != 201 then Run([exchange], Some(TokenRequestFailed(tokenStatus)))
      else
        var refresh := PkceRefreshParams(token.refreshToken, verifier);
        Run([exchange, refresh], if refreshStatus != 201 then Some(RefreshFailed(refreshStatus)) else None)
  }
}

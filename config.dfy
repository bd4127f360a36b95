/**
 * The application-registration model of the auth service: the client-id
 * pattern, the URL scheme rules, the grant-type enum, the validation of a
 * raw configuration mapping into `AppConfig`, and the token record.
 */
module Config {
  import opened Common

  /** The enum `GrantType` with its two values "Code" and "PKCE". */
  datatype GrantType = Code | Pkce

  /** The string value of an enum member. */
  function GrantTypeValue(g: GrantType): (s: string)
    ensures ParseGrantType(s) == Some(g)
  {
    match g
    case Code => "Code"
    case Pkce => "PKCE"
  }

  /** `GrantType(s)`: looks a member up by its exact, case-sensitive value. */
  function ParseGrantType(s: string): (r: Option<GrantType>)
    ensures r.Some? <==> s == "Code" || s == "PKCE"
  {
    if s == "Code" then Some(Code) else if s == "PKCE" then Some(Pkce) else None
  }

  /** The character class `[a-f0-9]`. */
  predicate IsLowerHex(c: char)
  {
    ('a' <= c <= 'f') || ('0' <= c <= '9')
  }

  /** The length of the longest prefix of `s` in `[a-f0-9]`. */
  function HexRun(s: string): (n: nat)
    ensures n <= |s|
    ensures forall i :: 0 <= i < n ==> IsLowerHex(s[i])
    ensures n < |s| ==> !IsLowerHex(s[n])
  {
    if s == [] || !IsLowerHex(s[0]) then 0 else 1 + HexRun(s[1..])
  }

  /**
   * `re.match(r"^[a-f0-9]{32}$", s)`, the constraint of `ClientId` and
   * `ClientSecret`: 32 lower-case hex digits, after which Python's `$` also
   * admits one final newline.
   */
  function MatchesClientIdPattern(s: string): (r: bool)
    ensures r <==> ((|s| == 32 || (|s| == 33 && s[32] == '\n')) && forall i :: 0 <= i < 32 ==> IsLowerHex(s[i]))
  {
    HexRun(s) >= 32 && (|s| == 32 || (|s| == 33 && s[32] == '\n'))
  }

  /** An upper-case letter anywhere rejects an id. */
  lemma UpperCaseRejected(s: string, i: nat)
    requires i < |s| && 'A' <= s[i] <= 'Z'
    ensures !MatchesClientIdPattern(s)
  {
  }

  /** ASCII lower-casing, as pydantic applies to a scheme before comparing it. */
  function AsciiLower(s: string): (r: string)
    ensures |r| == |s|
    ensures forall i :: 0 <= i < |s| ==> r[i] == if 'A' <= s[i] <= 'Z' then (s[i] as int + 32) as char else s[i]
  {
    if s == [] then []
    else [if 'A' <= s[0] <= 'Z' then (s[0] as int + 32) as char else s[0]] + AsciiLower(s[1..])
  }

  /** `HttpsUrl`: an `AnyUrl` (a host is required) whose scheme is https. */
  predicate IsHttpsUrl(u: Url)
  {
    AsciiLower(u.scheme) == "https" && u.host != ""
  }

  /** The scheme comparison ignores case: an upper-case `HTTPS` scheme is https. */
  lemma UpperCaseSchemeAccepted(u: Url)
    requires u.scheme == "HTTPS" && u.host != ""
    ensures IsHttpsUrl(u) && IsAnyHttpUrl(u)
  {
    assert AsciiLower(u.scheme) == "https";
  }

  /** `AnyHttpUrl`: an `AnyUrl` whose scheme is http or https. */
  predicate IsAnyHttpUrl(u: Url)
  {
    (AsciiLower(u.scheme) == "http" || AsciiLower(u.scheme) == "https") && u.host != ""
  }

  /** `OpenAPIAppConfig` once validated. */
  datatype AppConfig = AppConfig(
    appName: string,
    grantType: GrantType,
    clientId: string,
    clientSecret: Option<string>,
    authEndpoint: Url,
    tokenEndpoint: Url,
    apiBaseUrl: Url,
    redirectUrls: seq<Url>)

  /** What every value that passes field validation satisfies. */
  predicate FieldsValid(c: AppConfig)
  {
    && MatchesClientIdPattern(c.clientId)
    && (c.clientSecret.Some? ==> MatchesClientIdPattern(c.clientSecret.value))
    && IsHttpsUrl(c.authEndpoint) && IsHttpsUrl(c.tokenEndpoint) && IsHttpsUrl(c.apiBaseUrl)
    && forall i :: 0 <= i < |c.redirectUrls| ==> IsAnyHttpUrl(c.redirectUrls[i])
  }

  /** The grant-type/secret rule that the root validator is meant to enforce. */
  predicate GrantRule(c: AppConfig)
  {
    (c.grantType == Code ==> Truthy(c.clientSecret)) && (c.grantType == Pkce ==> c.clientSecret.None?)
  }

  /**
   * One value of the raw input mapping: a string, a list of strings, an
   * enum member passed in by a program, or `None`.
   */
  datatype Raw = RawStr(s: string) | RawStrs(items: seq<string>) | RawMember(g: GrantType) | RawNone

  /** Python truthiness of a raw value. */
  predicate RawTruthy(v: Raw)
  {
    match v
    case RawStr(s) => s != ""
    case RawStrs(items) => items != []
    case RawMember(_) => true
    case RawNone => false
  }

  /** pydantic's URL parser, supplied by the caller. */
  type UrlParser = string -> Option<Url>

  datatype ConfigError =
    | RootValidatorFailed(message: string)
    | InvalidFields(aliases: set<string>)

  /** The `pre=True` root validator, applied to the raw input with field-name keys. */
  function RootCheck(raw: map<string, Raw>): (r: Option<string>)
    ensures "grant_type" !in raw ==> r == None
    ensures r.Some? ==> "grant_type" in raw && raw["grant_type"].RawMember?
  {
    if "grant_type" in raw && raw["grant_type"] == RawMember(Code)
       && !("client_secret" in raw && RawTruthy(raw["client_secret"]))
    then Some("client_secret required for Code grant type")
    else if "grant_type" in raw && raw["grant_type"] == RawMember(Pkce)
       && !("client_secret" !in raw || raw["client_secret"] == RawNone)
    then Some("client_secret must be None for PKCE grant type")
    else None
  }

  function StrField(raw: map<string, Raw>, alias: string): Option<string>
  {
    if alias in raw && raw[alias].RawStr? then Some(raw[alias].s) else None
  }

  function GrantField(raw: map<string, Raw>): Option<GrantType>
  {
    if "GrantType" !in raw then None
    else match raw["GrantType"]
      case RawMember(g) => Some(g)
      case RawStr(s) => ParseGrantType(s)
      case _ => None
  }

  function IdField(raw: map<string, Raw>): Option<string>
  {
    var s := StrField(raw, "AppKey");
    if s.Some? && MatchesClientIdPattern(s.value) then s else None
  }

  /** `client_secret` defaults to None; a present value must match the pattern. */
  function SecretField(raw: map<string, Raw>): Option<Option<string>>
  {
    if "AppSecret" !in raw || raw["AppSecret"] == RawNone then Some(None)
    else if raw["AppSecret"].RawStr? && MatchesClientIdPattern(raw["AppSecret"].s) then Some(Some(raw["AppSecret"].s))
    else None
  }

  function HttpsField(raw: map<string, Raw>, alias: string, parse: UrlParser): Option<Url>
  {
    var s := StrField(raw, alias);
    if s.Some? && parse(s.value).Some? && IsHttpsUrl(parse(s.value).value) then parse(s.value) else None
  }

  function RedirectsField(raw: map<string, Raw>, parse: UrlParser): Option<seq<Url>>
  {
    if "RedirectUrls" !in raw || !raw["RedirectUrls"].RawStrs? then None
    else ParseRedirects(raw["RedirectUrls"].items, parse)
  }

  /** `List[AnyHttpUrl]`: every item must parse as an http or https URL. */
  function ParseRedirects(items: seq<string>, parse: UrlParser): (r: Option<seq<Url>>)
    ensures r.Some? <==> forall i :: 0 <= i < |items| ==> parse(items[i]).Some? && IsAnyHttpUrl(parse(items[i]).value)
    ensures r.Some? ==> |r.value| == |items| && forall i :: 0 <= i < |items| ==> r.value[i] == parse(items[i]).value
  {
    if items == [] then Some([])
    else if parse(items[0]).None? || !IsAnyHttpUrl(parse(items[0]).value) then None
    else match ParseRedirects(items[1..], parse)
      case None => None
      case Some(rest) => Some([parse(items[0]).value] + rest)
  }

  /** The aliases whose field validation fails. */
  function FailedFields(raw: map<string, Raw>, parse: UrlParser): set<string>
  {
    (if StrField(raw, "AppName").None? then {"AppName"} else {})
    + (if GrantField(raw).None? then {"GrantType"} else {})
    + (if IdField(raw).None? then {"AppKey"} else {})
    + (if SecretField(raw).None? then {"AppSecret"} else {})
    + (if HttpsField(raw, "AuthorizationEndpoint", parse).None? then {"AuthorizationEndpoint"} else {})
    + (if HttpsField(raw, "TokenEndpoint", parse).None? then {"TokenEndpoint"} else {})
    + (if HttpsField(raw, "OpenApiBaseUrl", parse).None? then {"OpenApiBaseUrl"} else {})
    + (if RedirectsField(raw, parse).None? then {"RedirectUrls"} else {})
  }

  /** Field validation after the root validator: every field by its alias. */
  function ParseFields(raw: map<string, Raw>, parse: UrlParser): (r: Result<AppConfig, ConfigError>)
    ensures r.Ok? ==> FieldsValid(r.value)
    ensures r.Ok? <==> FailedFields(raw, parse) == {}
    ensures r.Err? ==> r == Err(InvalidFields(FailedFields(raw, parse)))
    ensures r.Ok? ==> r.value.appName == raw["AppName"].s && r.value.clientId == raw["AppKey"].s
    ensures r.Ok? ==> raw["GrantType"].RawMember? ==> r.value.grantType == raw["GrantType"].g
    ensures r.Ok? ==> raw["GrantType"].RawStr? ==> GrantTypeValue(r.value.grantType) == raw["GrantType"].s
    ensures r.Ok? ==> (r.value.clientSecret.Some? <==> "AppSecret" in raw && raw["AppSecret"].RawStr?)
    ensures r.Ok? && r.value.clientSecret.Some? ==> r.value.clientSecret.value == raw["AppSecret"].s
    ensures r.Ok? ==> r.value.authEndpoint == parse(raw["AuthorizationEndpoint"].s).value
    ensures r.Ok? ==> r.value.tokenEndpoint == parse(raw["TokenEndpoint"].s).value
    ensures r.Ok? ==> r.value.apiBaseUrl == parse(raw["OpenApiBaseUrl"].s).value
    ensures r.Ok? ==> |r.value.redirectUrls| == |raw["RedirectUrls"].items|
    ensures r.Ok? ==> forall i :: 0 <= i < |r.value.redirectUrls| ==> r.value.redirectUrls[i] == parse(raw["RedirectUrls"].items[i]).value
  {
    if FailedFields(raw, parse) != {} then Err(InvalidFields(FailedFields(raw, parse)))
    else
      assert "AppName" !in FailedFields(raw, parse);
      assert "GrantType" !in FailedFields(raw, parse);
      assert "AppKey" !in FailedFields(raw, parse);
      assert "AppSecret" !in FailedFields(raw, parse);
      assert "AuthorizationEndpoint" !in FailedFields(raw, parse);
      assert "TokenEndpoint" !in FailedFields(raw, parse);
      assert "OpenApiBaseUrl" !in FailedFields(raw, parse);
      assert "RedirectUrls" !in FailedFields(raw, parse);
      Ok(AppConfig(
        StrField(raw, "AppName").value,
        GrantField(raw).value,
        IdField(raw).value,
        SecretField(raw).value,
        HttpsField(raw, "AuthorizationEndpoint", parse).value,
        HttpsField(raw, "TokenEndpoint", parse).value,
        HttpsField(raw, "OpenApiBaseUrl", parse).value,
        RedirectsField(raw, parse).value))
  }

  /**
   * `OpenAPIAppConfig.parse_obj(raw)` as written: the root validator first,
   * on the raw keys, then field validation.
   */
  function ParseConfig(raw: map<string, Raw>, parse: UrlParser): (r: Result<AppConfig, ConfigError>)
    ensures RootCheck(raw).Some? ==> r == Err(RootValidatorFailed(RootCheck(raw).value))
    ensures RootCheck(raw).None? ==> r == ParseFields(raw, parse)
    ensures r.Ok? ==> FieldsValid(r.value)
  {
    var root := RootCheck(raw);
    if root.Some? then Err(RootValidatorFailed(root.value)) else ParseFields(raw, parse)
  }

  /** Every field except `AppSecret` is required. */
  lemma RequiredFields(raw: map<string, Raw>, parse: UrlParser)
    requires ParseConfig(raw, parse).Ok?
    ensures forall a :: a in {"AppName", "GrantType", "AppKey", "AuthorizationEndpoint", "TokenEndpoint", "OpenApiBaseUrl", "RedirectUrls"} ==> a in raw
  {
    assert FailedFields(raw, parse) == {};
  }

  /** Without `AppSecret` a config that validates has no secret. */
  lemma SecretDefaultsToNone(raw: map<string, Raw>, parse: UrlParser)
    requires ParseConfig(raw, parse).Ok? && "AppSecret" !in raw
    ensures ParseConfig(raw, parse).value.clientSecret == None
  {
  }

  /**
   * Input keyed by the aliases, the form the configuration file has, never
   * reaches the root validator's assertions: a Code config without a secret
   * validates.
   */
  lemma CodeWithoutSecretAccepted(raw: map<string, Raw>, parse: UrlParser)
    requires "grant_type" !in raw && "AppSecret" !in raw
    requires "GrantType" in raw && raw["GrantType"] == RawStr("Code")
    requires FailedFields(raw, parse) == {}
    ensures ParseConfig(raw, parse).Ok?
    ensures ParseConfig(raw, parse).value.grantType == Code
    ensures ParseConfig(raw, parse).value.clientSecret == None
    ensures !GrantRule(ParseConfig(raw, parse).value)
  {
  }

  /**
   * The validation the root validator evidently intends: fields first, then
   * the grant-type/secret rule on the validated values.
   */
  function ParseConfigIntended(raw: map<string, Raw>, parse: UrlParser): (r: Result<AppConfig, ConfigError>)
    ensures r.Ok? ==> FieldsValid(r.value) && GrantRule(r.value)
    ensures r.Ok? <==> ParseFields(raw, parse).Ok? && GrantRule(ParseFields(raw, parse).value)
  {
    match ParseFields(raw, parse)
    case Err(e) => Err(e)
    case Ok(c) =>
      if c.grantType == Code && !Truthy(c.clientSecret) then Err(RootValidatorFailed("client_secret required for Code grant type"))
      else if c.grantType == Pkce && c.clientSecret.Some? then Err(RootValidatorFailed("client_secret must be None for PKCE grant type"))
      else Ok(c)
  }

  /** Where the as-written validator accepts, the intended one agrees or rejects for the rule alone. */
  lemma IntendedOnlyAddsGrantRule(raw: map<string, Raw>, parse: UrlParser)
    requires ParseConfig(raw, parse).Ok?
    ensures ParseConfigIntended(raw, parse).Ok? <==> GrantRule(ParseConfig(raw, parse).value)
    ensures ParseConfigIntended(raw, parse).Ok? ==> ParseConfigIntended(raw, parse) == ParseConfig(raw, parse)
  {
  }

  /** `AuthTokenData`: the token endpoint's response record. */
  datatype AuthTokenData = AuthTokenData(
    accessToken: string,
    tokenType: string,
    expiresIn: int,
    refreshToken: string,
    refreshTokenExpiresIn: int,
    baseUri: Option<string>)
}

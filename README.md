# OpenAPI samples (Python): OAuth session, PKCE and streaming frames

This project models the core of the Saxo OpenAPI Python samples in Dafny:

- **`SaxoAuthService`**, the OAuth session object. It picks the redirect URL for a grant (Code or PKCE). It builds the authorization request. For PKCE it derives the code verifier and the S256 challenge. It records the SSO callback in its fields, checks the error message and the returned state, exchanges the code for token data, refreshes, and logs out. A second `login` without a `logout` in between finds the callback flag still set from the first one and fails the state check (see Findings). It is modelled as a class whose fields are the Python attributes; every method states the new value of each field it touches, on every path.
- **The `OpenAPIAppConfig` validation** of `models.py`:
  - the 32-hex-digit client id and secret pattern;
  - the https and http URL rules;
  - the grant-type enum;
  - the `pre=True` root validator;
  - the token record.
- **PKCE** as RFC 7636 describes it (sections 4.1 and 4.2): unpadded base64url (section 5 of RFC 4648) applied to 64 random bytes, and to the SHA-256 digest of the verifier. The model proves a decoder that inverts the encoder.
- **The two bare-bones scripts**, one per grant. Their callback handler writes module globals. They check the state before the error. They send literal parameter dicts: an authorization request, a code exchange and one refresh.
- **The websocket frame envelope**:
  - `decode_message`, a cursor loop over back-to-back frames, modelled as a method with loop invariants against a recursive specification;
  - `on_message`, which reads the first frame at fixed offsets;
  - an encoder, which makes the round trip provable.

Query parameter dicts are ordered lists of (key, value) items. `Set` overwrites an existing key where it stands or appends a new one, and `Update` sets items one after another, as Python's `dict.update` does. Python `None` values stay in the dict as `Null`. Random values, SHA-256 and the token endpoint's reply (status and parsed body) are parameters.

The model follows these behaviours of the code:
- Slicing a ref id or payload that runs past the buffer end raises nothing, since Python slices clip; only the two single-byte reads (the ref id length and the payload format) raise `IndexError`. The clipped payload is then passed to `.decode()` and `json.loads` (websockets-sample.py:80, 83), which will usually raise on truncated text. Those calls are left out (see below), so the model yields that last frame with its clipped payload where the script would most likely stop with a decoding error.
- `logout` keeps the PKCE verifier.
- The configured redirect list may be empty, which makes a `login` without an explicit redirect URL raise `IndexError` (`NoRedirectUrls`); with an explicit URL a Code login raises `ValueError` unless the URL is configured, and a PKCE login with a valid port goes ahead.
- The callback handler overwrites its fields on every call.
- The service checks the error message before the state; the bare-bones scripts check the state first.
- The grant-type/secret rule is not enforced on configurations keyed by their aliases (see Findings).

## Model

| member | source | states |
|---|---|---|
| Common.Lookup | authentication/oauth/auth-service/saxo_auth_service.py:124-129 | a dict lookup finds a value exactly when some item has the key |
| Common.Set | authentication/oauth/auth-service/saxo_auth_service.py:137-147 | after `p[k] = v` the key maps to `v` |
| Common.SetOthers | authentication/oauth/auth-service/saxo_auth_service.py:137-147 | setting a key leaves the value of every other key unchanged |
| Common.SetAppends | authentication/oauth/auth-service/saxo_auth_service.py:137-147 | setting a key that is not there appends it at the end of the insertion order |
| Common.FreshKeysStep | authentication/oauth/auth-service/saxo_auth_service.py:137-147 | moving the first update item into the dict keeps the rest of the update's keys new |
| Common.MoveFirst | authentication/oauth/auth-service/saxo_auth_service.py:137-147 | moving the first item of an update onto the dict keeps the concatenation unchanged |
| Common.UpdateStep | authentication/oauth/auth-service/saxo_auth_service.py:137-147 | `update` with a new first key appends that item and continues with the rest |
| Common.Update | authentication/oauth/auth-service/saxo_auth_service.py:137-147 | `p.update(q)`: sets the items of `q` in order; it has no contract of its own, `UpdateAppends` states its result |
| Common.UpdateAppends | authentication/oauth/auth-service/saxo_auth_service.py:137-147 | `p.update(q)` with keys all new to `p` and distinct yields the items of `p` followed by those of `q` |
| Common.UpdateTwice | authentication/oauth/auth-service/saxo_auth_service.py:235-281 | `{}` updated twice with distinct keys holds both item lists in order |
| Common.LookupAt | authentication/oauth/pkce-flow/bare-bones-pkce-flow-app.py:102-109 | the first item with a key is what a lookup of that key returns |
| Common.KeyName | authentication/oauth/auth-service/saxo_auth_service.py:124-147 | the parameter names as sent; `KeyNameInjective` proves them pairwise distinct |
| Common.KeyNameInjective | authentication/oauth/auth-service/saxo_auth_service.py:124-129 | distinct parameters are sent under distinct names |
| Config.GrantTypeValue | authentication/oauth/auth-service/models.py:33-35 | each enum member's value parses back to that member |
| Config.ParseGrantType | authentication/oauth/auth-service/models.py:33-35 | `GrantType(s)` succeeds exactly for "Code" and "PKCE" |
| Config.HexRun | authentication/oauth/auth-service/models.py:21-22 | the longest prefix of `[a-f0-9]` characters: all hex before it, none at its end |
| Config.MatchesClientIdPattern | authentication/oauth/auth-service/models.py:21-26 | `^[a-f0-9]{32}$` accepts exactly 32 lower-case hex digits, optionally followed by one newline, which `$` allows |
| Config.UpperCaseRejected | authentication/oauth/auth-service/models.py:21-22 | an upper-case letter anywhere rejects a client id |
| Config.AsciiLower | authentication/oauth/auth-service/models.py:29-30 | scheme lower-casing keeps the length, maps each of 'A'..'Z' to its lower-case letter and keeps every other character |
| Config.IsHttpsUrl | authentication/oauth/auth-service/models.py:29-30 | `HttpsUrl`: a host and a scheme that reads https ignoring case (a predicate; `UpperCaseSchemeAccepted` is about it) |
| Config.IsAnyHttpUrl | authentication/oauth/auth-service/models.py:48 | `AnyHttpUrl`: a host and a scheme that reads http or https ignoring case (a predicate used by `ParseRedirects`) |
| Config.UpperCaseSchemeAccepted | authentication/oauth/auth-service/models.py:29-30 | an upper-case `HTTPS` scheme passes both the https and the http(s) rule |
| Config.RootCheck | authentication/oauth/auth-service/models.py:50-60 | the root validator raises nothing without a `grant_type` key, and raises only when that key holds an enum member, so a raw string such as "Code" never trips its `is` tests |
| Config.ParseRedirects | authentication/oauth/auth-service/models.py:48 | the redirect list validates iff every item parses as an http(s) URL, and then holds the parsed items in order |
| Config.ParseFields | authentication/oauth/auth-service/models.py:41-48 | field validation succeeds exactly when no alias fails, and otherwise reports the failing aliases. A validated config holds the values given in the input. The name and key are the raw strings. The grant type is the passed enum member, or the member whose value is the string. The secret is present exactly when `AppSecret` holds a string, and is that string. Each endpoint is the parse of its string. The redirect list parses each item, in order and with none dropped. Every field is valid. |
| Config.ParseConfig | authentication/oauth/auth-service/models.py:38-60 | `parse_obj` as written: a root-validator failure wins, otherwise field validation decides; success gives a valid config |
| Config.RequiredFields | authentication/oauth/auth-service/models.py:41-48 | every field except `AppSecret` is required |
| Config.SecretDefaultsToNone | authentication/oauth/auth-service/models.py:44 | without `AppSecret` the secret is None |
| Config.CodeWithoutSecretAccepted | authentication/oauth/auth-service/models.py:50-60 | alias-keyed input with grant Code and no secret validates, breaking the grant rule |
| Config.ParseConfigIntended | authentication/oauth/auth-service/models.py:50-60 | the corrected validation accepts iff fields validate and the grant/secret rule holds |
| Config.IntendedOnlyAddsGrantRule | authentication/oauth/auth-service/models.py:50-60 | where the as-written validation accepts, the corrected one accepts iff the grant rule holds, with the same config |
| Base64Url.Symbol | authentication/oauth/auth-service/saxo_auth_service.py:132-134 | each 6-bit value maps to a base64url symbol, never the pad |
| Base64Url.SymbolValue | authentication/oauth/auth-service/saxo_auth_service.py:132-134 | decoding a symbol gives a 6-bit value that encodes back to it |
| Base64Url.SymbolInverse | authentication/oauth/auth-service/saxo_auth_service.py:132-134 | encoding a 6-bit value and decoding the symbol gives the value back |
| Base64Url.Encode | authentication/oauth/auth-service/saxo_auth_service.py:132 | `urlsafe_b64encode` output has length 4·⌈n/3⌉ |
| Base64Url.RStrip | authentication/oauth/auth-service/saxo_auth_service.py:132 | `rstrip(b"=")` yields a prefix that does not end in the stripped byte, dropping only copies of it |
| Base64Url.EncodeUnpadded | authentication/oauth/auth-service/saxo_auth_service.py:132-134 | `urlsafe_b64encode(b).rstrip(b"=")`: the padded encoding with only trailing pad bytes dropped, ending in a non-pad byte |
| Base64Url.Decode | authentication/oauth/auth-service/saxo_auth_service.py:132-134 | the decoder that inverts the stripped encoding: it accepts no length of the form 4k+1 and yields 3·n/4 bytes for n symbols |
| Base64Url.RStripAppend | authentication/oauth/auth-service/saxo_auth_service.py:132 | stripping trailing pads never reaches past a non-pad byte |
| Base64Url.EncodeUnpaddedStep | authentication/oauth/auth-service/saxo_auth_service.py:132-134 | the stripped encoding is the complete groups followed by 2 or 3 symbols for a 1- or 2-byte tail |
| Base64Url.EncodeUnpaddedShape | authentication/oauth/auth-service/saxo_auth_service.py:132-134 | the stripped encoding has the RFC 4648 unpadded length and contains only alphabet symbols |
| Base64Url.DivMod16 | authentication/oauth/auth-service/saxo_auth_service.py:132-134 | splitting a value into its upper part and its low 4 bits recovers both |
| Base64Url.DivMod4 | authentication/oauth/auth-service/saxo_auth_service.py:132-134 | splitting a value into its upper part and its low 2 bits recovers both |
| Base64Url.GroupArithmetic | authentication/oauth/auth-service/saxo_auth_service.py:132-134 | the four 6-bit values of a group recombine into its three bytes |
| Base64Url.DecodeGroup | authentication/oauth/auth-service/saxo_auth_service.py:132-134 | decoding a complete group yields its three bytes before the rest |
| Base64Url.RoundTripOne | authentication/oauth/auth-service/saxo_auth_service.py:132-134 | a one-byte input survives encoding and decoding |
| Base64Url.RoundTripTwo | authentication/oauth/auth-service/saxo_auth_service.py:132-134 | a two-byte input survives encoding and decoding |
| Base64Url.RoundTripGroup | authentication/oauth/auth-service/saxo_auth_service.py:132-134 | a leading complete group preserves the round trip of the rest |
| Base64Url.RoundTrip | authentication/oauth/auth-service/saxo_auth_service.py:132-134 | decoding inverts unpadded encoding for every byte string |
| Base64Url.Injective | authentication/oauth/auth-service/saxo_auth_service.py:132-134 | distinct byte strings have distinct unpadded encodings |
| Pkce.CodeVerifier | authentication/oauth/pkce-flow/bare-bones-pkce-flow-app.py:83-88 | `code_verifier()`: the stripped encoding of the random bytes; no contract of its own, `VerifierShape` states its length, alphabet and inverse |
| Pkce.CodeChallenge | authentication/oauth/pkce-flow/bare-bones-pkce-flow-app.py:91-97 | `code_challenge(verifier)`: the stripped encoding of SHA-256 of the verifier; no contract of its own, `ChallengeShape` states its length, alphabet and inverse |
| Pkce.VerifierShape | authentication/oauth/pkce-flow/bare-bones-pkce-flow-app.py:83-88 | a verifier from 64 random bytes has 86 characters (within the 43–128 of RFC 7636), all base64url symbols without padding, and decodes back to the bytes |
| Pkce.ChallengeShape | authentication/oauth/pkce-flow/bare-bones-pkce-flow-app.py:91-97 | an S256 challenge has 43 base64url symbols and decodes to SHA-256 of the verifier |
| Pkce.VerifierInjective | authentication/oauth/auth-service/saxo_auth_service.py:132 | different random bytes give different verifiers |
| Pkce.ChallengeDeterminedByDigest | authentication/oauth/auth-service/saxo_auth_service.py:133-134 | two challenges are equal iff the digests of their verifiers are |
| AuthService.CodeRedirect | authentication/oauth/auth-service/saxo_auth_service.py:91-99 | Code grant: no URL means the first configured one (IndexError on an empty list); a given URL must be configured, otherwise ValueError |
| AuthService.PkceRedirect | authentication/oauth/auth-service/saxo_auth_service.py:101-115 | PKCE grant: with neither URL nor port, the first configured URL with the random port; a port without a URL fails with AttributeError; a URL needs a valid port; the result is not checked against the configured list |
| AuthService.ResolveRedirect | authentication/oauth/auth-service/saxo_auth_service.py:90-115 | the redirect for the configured grant: for Code it is always one of the configured URLs, for PKCE it always carries a valid port |
| AuthService.PkceIgnoresAllowList | authentication/oauth/auth-service/saxo_auth_service.py:111-115 | any caller-supplied URL with a valid port is accepted for PKCE |
| AuthService.AuthRequestParams | authentication/oauth/auth-service/saxo_auth_service.py:123-147 | `auth_request_query_params` after the grant's `update`; no contract of its own, `AuthRequestParamsContents` states its items |
| AuthService.AuthRequestParamsContents | authentication/oauth/auth-service/saxo_auth_service.py:124-147 | the authorization request is exactly `response_type, client_id, state, redirect_uri`, followed by `code_challenge, code_challenge_method=S256` (PKCE) or `client_secret` (Code) |
| AuthService.AuthExtrasExclusive | authentication/oauth/auth-service/saxo_auth_service.py:131-147 | PKCE requests carry no secret; Code requests carry no challenge |
| AuthService.TokenRequestParams | authentication/oauth/auth-service/saxo_auth_service.py:235-281 | `token_request_params`: building them fails exactly when the code is falsy and there is no token data (the `None.refresh_token` AttributeError); the contents lemmas below state the dicts |
| AuthService.ExchangeParamsContents | authentication/oauth/auth-service/saxo_auth_service.py:238-258 | a truthy code gives exactly `grant_type=authorization_code, code, redirect_uri, client_id`, then `client_secret` (Code) or `code_verifier` (PKCE) |
| AuthService.RefreshParamsContents | authentication/oauth/auth-service/saxo_auth_service.py:261-281 | a falsy code gives `grant_type=refresh_token, refresh_token`, then `redirect_uri, client_id, client_secret` (Code) or `code_verifier` (PKCE); without token data it fails |
| AuthService.CallbackVerdict | authentication/oauth/auth-service/saxo_auth_service.py:166-172 | login proceeds iff the error message is falsy and the received state equals the one sent; the error is reported before a state mismatch |
| AuthService.SaxoAuthService.constructor | authentication/oauth/auth-service/saxo_auth_service.py:26-43 | a new service holds the given config, no token data and no negotiation state |
| AuthService.SaxoAuthService.LoggedIn | authentication/oauth/auth-service/saxo_auth_service.py:55-60 | `logged_in`: there is token data (a predicate, used by `AccessToken`, `Refresh` and `Logout`) |
| AuthService.SaxoAuthService.AccessToken | authentication/oauth/auth-service/saxo_auth_service.py:55-81 | the access token is available iff logged in; otherwise ValueError |
| AuthService.SaxoAuthService.BeginLogin | authentication/oauth/auth-service/saxo_auth_service.py:90-147 | a failed redirect stores nothing; otherwise the redirect is stored, for PKCE the verifier too, and the request carries the challenge of that very verifier |
| AuthService.SaxoAuthService.HandleCallback | authentication/oauth/auth-service/saxo_auth_service.py:183-211 | the handler resets the flag and the three fields, then records the error or the code, then the state, then sets the flag; the flag ends true iff every key read was present, and otherwise the missing key is reported |
| AuthService.SaxoAuthService.ExerciseAuthorization | authentication/oauth/auth-service/saxo_auth_service.py:232-290 | a request that cannot be built changes nothing; status 201 replaces the token data with the reply; any other status raises and keeps the old token data |
| AuthService.SaxoAuthService.ApplyTokenResponse | authentication/oauth/auth-service/saxo_auth_service.py:283-290 | only status 201 replaces the token data |
| AuthService.SaxoAuthService.CompleteLogin | authentication/oauth/auth-service/saxo_auth_service.py:164-176 | after the wait, a failed verdict changes no token data; otherwise the stored code is exchanged as `exercise_authorization` does |
| AuthService.SaxoAuthService.AwaitCallback | authentication/oauth/auth-service/saxo_auth_service.py:157-162 | the wait ends with the flag set: at once, keeping the earlier fields, when it was still set; otherwise after the handler call, with the callback's error, code and state |
| AuthService.SaxoAuthService.Login | authentication/oauth/auth-service/saxo_auth_service.py:83-176 | an unresolvable redirect changes nothing; otherwise the redirect and (PKCE) the verifier are stored and the flag is set; a flag already set skips the wait and keeps the earlier callback's fields, otherwise the fields come from the callback; then error, state and exchange decide the result and the token data exactly as in `CompleteLogin`; an error callback or a wrong state fails with the token data unchanged |
| AuthService.SaxoAuthService.LoginIntended | authentication/oauth/auth-service/saxo_auth_service.py:83-176 | corrected `login`: an unresolvable redirect changes nothing; otherwise the redirect and (PKCE) the verifier are stored, the flag is cleared before the wait so the callback fields always come from this login's callback, and error, state and exchange decide the result and the token data in all four cases; a clean callback with the sent state, a non-empty code and a 201 reply logs in |
| AuthService.RepeatedLoginFails | authentication/oauth/auth-service/saxo_auth_service.py:157-172 | on one session, a successful login followed by a second one with a different state fails with the state mismatch, whatever the second callback |
| AuthService.RepeatedLoginIntended | authentication/oauth/auth-service/saxo_auth_service.py:157-176 | with the corrected `login`, two logins on one session both succeed |
| AuthService.SaxoAuthService.Refresh | authentication/oauth/auth-service/saxo_auth_service.py:225-230 | logged out: ValueError and no change; logged in: the refresh parameters are sent and only a 201 reply replaces the token |
| AuthService.SaxoAuthService.Logout | authentication/oauth/auth-service/saxo_auth_service.py:215-221 | token data and the five negotiation fields become None; the session is logged out |
| BareBones.DecimalString | authentication/oauth/pkce-flow/bare-bones-pkce-flow-app.py:32 | `str(n)`; no contract of its own, `DecimalRoundTrip` and `PortIsFourDigits` state that it is all digits, four of them for the random port, and reads back as `n` |
| BareBones.DecimalValue | authentication/oauth/pkce-flow/bare-bones-pkce-flow-app.py:32 | `int(s)` on a digit string, the inverse that `DecimalRoundTrip` proves |
| BareBones.DecimalRoundTrip | authentication/oauth/pkce-flow/bare-bones-pkce-flow-app.py:32 | `str(n)` is all digits and reads back as `n` |
| BareBones.PortIsFourDigits | authentication/oauth/pkce-flow/bare-bones-pkce-flow-app.py:32 | the random port string has four digits that read back as the number |
| BareBones.AdHocRedirect | authentication/oauth/pkce-flow/bare-bones-pkce-flow-app.py:33-34 | `ad_hoc_redirect`; no contract of its own, `AdHocRedirectLayout` states where each part sits |
| BareBones.AdHocRedirectLayout | authentication/oauth/pkce-flow/bare-bones-pkce-flow-app.py:33-34 | the ad hoc redirect is scheme `://` netloc, `:`, the four port digits, then the path |
| BareBones.PkceCallbackRoute | authentication/oauth/pkce-flow/bare-bones-pkce-flow-app.py:37 | `@app.route('/callback')`, independent of the configured redirect; `CallbackRoutes` relates it to the redirect's path |
| BareBones.CallbackRoutes | authentication/oauth/pkce-flow/bare-bones-pkce-flow-app.py:34-37 | the PKCE handler is routed at `/callback`, which the path of the ad hoc redirect reaches exactly when the configured path is `/callback` |
| BareBones.ScriptGlobals.constructor | authentication/oauth/pkce-flow/bare-bones-pkce-flow-app.py:114 | the flag starts false; the other globals are unbound |
| BareBones.ScriptGlobals.HandleCallback | authentication/oauth/code-flow/bare-bones-code-flow-app.py:50-69 | the handler clears only the error and the code, so an aborted call keeps the earlier state and flag |
| BareBones.StaleStateAfterAbortedCallback | authentication/oauth/pkce-flow/bare-bones-pkce-flow-app.py:43-55 | after a complete callback and one lacking `state`, the globals hold the flag set, the old state and the new code |
| BareBones.ScriptVerdict | authentication/oauth/pkce-flow/bare-bones-pkce-flow-app.py:128-135 | the script proceeds iff the state matches and the error message is falsy; a state mismatch is reported first |
| BareBones.VerdictOrder | authentication/oauth/code-flow/bare-bones-code-flow-app.py:128-135 | scripts and service accept the same callbacks but blame different causes for an error with a wrong state |
| BareBones.PkceAuthParams | authentication/oauth/pkce-flow/bare-bones-pkce-flow-app.py:102-109 | the PKCE script's literal authorization request (its properties are `PkceAuthCarries` and `AuthRequestsMatchService`) |
| BareBones.PkceTokenParams | authentication/oauth/pkce-flow/bare-bones-pkce-flow-app.py:140-146 | the PKCE script's literal code exchange (see `PkceExchangeCarries`, `PkceScriptMatchesService`) |
| BareBones.PkceRefreshParams | authentication/oauth/pkce-flow/bare-bones-pkce-flow-app.py:178-182 | the PKCE script's literal refresh (see `PkceScriptMatchesService`, `RefreshSetsDiffer`) |
| BareBones.CodeAuthParams | authentication/oauth/code-flow/bare-bones-code-flow-app.py:94-100 | the Code script's literal authorization request (see `AuthRequestsMatchService`) |
| BareBones.CodeTokenParams | authentication/oauth/code-flow/bare-bones-code-flow-app.py:140-146 | the Code script's literal code exchange (see `CodeExchangeMatchesService`) |
| BareBones.CodeRefreshParams | authentication/oauth/code-flow/bare-bones-code-flow-app.py:180-186 | the Code script's literal refresh (see `CodeRefreshMatchesService`, `RefreshSetsDiffer`) |
| BareBones.AuthRequestsMatchService | authentication/oauth/code-flow/bare-bones-code-flow-app.py:94-100 | both scripts' authorization requests send the service's parameter names for their grant, in the service's order |
| BareBones.PkceAuthCarries | authentication/oauth/pkce-flow/bare-bones-pkce-flow-app.py:102-109 | the authorization request carries the ad hoc redirect and the challenge of the verifier |
| BareBones.PkceExchangeCarries | authentication/oauth/pkce-flow/bare-bones-pkce-flow-app.py:140-146 | the exchange carries the same redirect and the verifier itself |
| BareBones.PkceScriptMatchesService | authentication/oauth/pkce-flow/bare-bones-pkce-flow-app.py:140-182 | the script's PKCE refresh equals the service's; its exchange sends the service's parameter names in the same order |
| BareBones.CodeExchangeMatchesService | authentication/oauth/code-flow/bare-bones-code-flow-app.py:140-146 | the Code script's exchange sends the service's names in the same order |
| BareBones.CodeRefreshMatchesService | authentication/oauth/code-flow/bare-bones-code-flow-app.py:180-186 | the Code script's refresh sends the service's names in the same order |
| BareBones.RefreshSetsDiffer | authentication/oauth/code-flow/bare-bones-code-flow-app.py:180-186 | only the Code refresh identifies client and redirect; it carries no verifier |
| BareBones.CodeScriptRun | authentication/oauth/code-flow/bare-bones-code-flow-app.py:128-192 | the exchange is sent iff the verdict passes; the refresh, with the first reply's refresh token, only after a 201; the run completes iff both replies are 201 |
| BareBones.PkceScriptRun | authentication/oauth/pkce-flow/bare-bones-pkce-flow-app.py:128-188 | the same sequencing for the PKCE script, with its verifier in both requests |
| Streaming.Pow256 | websockets/websockets-sample.py:49 | the bound of a little-endian field is positive |
| Streaming.Slice | websockets/websockets-sample.py:49-80 | Python's clipped `m[lo:hi]` (the slices at lines 49, 61, 75 and 80); `SliceAgree`, `SliceShift` and `SliceWithin` state its properties |
| Streaming.LittleEndian | websockets/websockets-sample.py:49-75 | `int.from_bytes(bs, byteorder="little")` (lines 49 and 75); `LittleEndianBound` bounds it and `ToLittleEndian` inverts it |
| Streaming.LittleEndianBound | websockets/websockets-sample.py:49 | a `k`-byte little-endian number is below 256^k |
| Streaming.ToLittleEndian | websockets/websockets-sample.py:75 | writing a number in `k` bytes gives `k` bytes that `from_bytes` reads back |
| Streaming.MessageIdAt | websockets/websockets-sample.py:49 | the message id field at the cursor; `ParseFrameOutcome` bounds it below 256^8 |
| Streaming.PayloadSizeAt | websockets/websockets-sample.py:75 | the payload size field of the frame at the cursor; `ParseFrameReads` ties it to the loop's read |
| Streaming.ParseFrameAt | websockets/websockets-sample.py:49-81 | a parsed frame moves the cursor at least 16 bytes |
| Streaming.ParseFrameOutcome | websockets/websockets-sample.py:49-81 | a step fails iff the ref id length or the format byte is read out of range, at that index; otherwise the ref id has the announced length and the cursor lands right after the payload unless it was cut short |
| Streaming.DecodeFrom | websockets/websockets-sample.py:41-83 | what the loop yields from a cursor; no contract of its own, `DecodeMessage` is proved equal to it and `DecodeBounds`, `DecodeShift` and `RoundTrip` state its properties |
| Streaming.DecodeBounds | websockets/websockets-sample.py:41-83 | every frame the loop yields but the last takes at least 16 bytes inside the buffer, and a failure is always a read past its end |
| Streaming.UnsupportedFormat | websockets/websockets-sample.py:69-71 | the warning branch: a payload format other than 0 (a predicate; the warning is only printed) |
| Streaming.DecodeStep | websockets/websockets-sample.py:42-43 | a decoded frame precedes what decoding from its end yields |
| Streaming.ParseFrameReads | websockets/websockets-sample.py:49-81 | the reads at the advancing cursor are the frame's fields |
| Streaming.ReadFrame | websockets/websockets-sample.py:49-81 | the loop body, field by field, computes the specified step |
| Streaming.DecodeMessage | websockets/websockets-sample.py:41-83 | the cursor loop yields exactly the frames and the failure of the recursive specification |
| Streaming.OnMessage | websockets/websocket-sample.py:21-29 | on a non-empty buffer the fixed-offset reader returns the decoder's first frame, or fails where the decoder fails before any frame |
| Streaming.ShortBufferFails | websockets/websocket-sample.py:23 | a buffer of 1 to 10 bytes fails at index 10 in both readers |
| Streaming.SliceAgree | websockets/websockets-sample.py:49-81 | clipped slices agree where the buffers agree |
| Streaming.VersionSkipped | websockets/websockets-sample.py:53 | the two version bytes never affect the parse |
| Streaming.FieldsAgree | websockets/websockets-sample.py:53 | the in-range case of the version bytes being ignored |
| Streaming.EncodeFrame | websockets/websockets-sample.py:45-81 | an encoded frame is 16 bytes plus its ref id and payload |
| Streaming.SliceShift | websockets/websockets-sample.py:49-81 | clipped slicing commutes with dropping a prefix |
| Streaming.ParseShift | websockets/websockets-sample.py:49-81 | parsing at a cursor ignores bytes earlier in the buffer, up to the offset |
| Streaming.FieldsShift | websockets/websockets-sample.py:49-81 | the in-range case of `ParseShift` |
| Streaming.DecodeShift | websockets/websockets-sample.py:42-81 | decoding from a cursor ignores earlier bytes: same frames, same failure offset by the prefix |
| Streaming.SliceWithin | websockets/websockets-sample.py:49-81 | slices inside a stored stretch are slices of that stretch |
| Streaming.EncodedFields | websockets/websockets-sample.py:45-81 | every field sits at its offset in an encoded frame |
| Streaming.StoredLaidOut | websockets/websockets-sample.py:45-81 | a stored copy of the fields lays them out at that cursor |
| Streaming.ParseLaidOut | websockets/websockets-sample.py:49-81 | laid-out fields parse to the frame, with the cursor at its end |
| Streaming.EncodedLaidOut | websockets/websockets-sample.py:45-81 | an encoded frame stored at a cursor lays out its fields |
| Streaming.ParseEncodedAt | websockets/websockets-sample.py:49-81 | an encoded frame stored at a cursor parses back to itself |
| Streaming.ParseEncoded | websockets/websockets-sample.py:49-81 | an encoded frame followed by anything parses back to itself |
| Streaming.DecodeSuffix | websockets/websockets-sample.py:42-43 | decoding from cursor `k` depends only on the bytes from `k` |
| Streaming.DecodeAfterHead | websockets/websockets-sample.py:42-81 | after a first frame, decoding continues as on the rest of the buffer |
| Streaming.DecodeEncoded | websockets/websockets-sample.py:42-81 | an encoded frame followed by `rest` decodes to the frame followed by what `rest` decodes to |
| Streaming.RoundTrip | websockets/websockets-sample.py:41-83 | back-to-back encoded frames decode to exactly those frames, in order, with no error |
| Streaming.OnMessageIgnoresTail | websockets/websocket-sample.py:21-29 | an encoded frame followed by anything is read back by the fixed-offset reader as exactly that frame |

## Left out

- Flask routing and the redirect server threads are not modelled; the callback arrives as one handler call. The same goes for the polling `while not received_callback` loops with `sleep(1)` and the keyboard-interrupt exit, and for the browser. `CompleteLogin` requires the flag the loop waits for.
- AuthService.SaxoAuthService.Login: when the flag is not already set, requires the callback to be complete. The handler clears the flag first and sets it only at its end, so a call that aborts on a missing key does not end the real wait, which goes on until a complete call arrives; that waiting is not modelled.
- Randomness, hashing and the network are out of scope:
  - `secrets.token_urlsafe`, `secrets.token_bytes` and `randint` are parameters of the operations;
  - SHA-256 is a parameter of type `Hash` with 32-byte results;
  - `requests.post` is replaced by its status code and the already parsed `AuthTokenData` passed in.
- JSON decoding, the `.decode()` of ref ids and payloads as UTF-8, printing and logging are not modelled. Frames keep raw bytes, and the format-warning branch is the predicate `UnsupportedFormat`.
- URL handling is simplified:
  - URLs are pre-parsed values (scheme, host, optional port, path); `urlencode` and the prepared URL text are not modelled.
  - pydantic's re-parsing of the formatted redirect is approximated by "port present and in 0..65535" (`InvalidRedirectPort`).
  - A path that pydantic leaves `None` is not modelled: the path is a string.
- The `__init__` branch that loads `app_config.json` from disk or raises `RuntimeError` is not modelled; the constructor takes an already validated config (`Config.ParseConfig` models the validation).
- The `available_redirect_urls`, `grant_type` and `api_base_url` properties are plain accessors of the config; the model reads `appConfig` directly.
- The bare-bones scripts' steps outside the OAuth flow are not modelled: the `users/me` GET, its `x-correlation` header and its non-fatal status check. The Code script's `AppKey is ...` guard for an unpasted config is not modelled either.
- Script globals that Python has not bound yet (`code`, `error_message`, `received_state` before the first callback) are modelled as `None`.
- The streaming connection, its authorization header, and the `auth-service/sample.py` driver are not modelled.

## Findings

| source | as written | input that shows it | evidently intended | confidence | as-written member | corrected member |
|---|---|---|---|---|---|---|
| authentication/oauth/auth-service/models.py:50-60 | the `pre=True` root validator looks up `grant_type` and `client_secret` in the raw input, which is keyed by the aliases `GrantType` and `AppSecret`; it also compares with `is` against enum members while the raw value is the string `"Code"` | `{"AppName": …, "GrantType": "Code", "AppKey": <32 hex>, three https endpoints, "RedirectUrls": [...]}` with no `AppSecret` validates with `client_secret = None` | a Code config must have a secret and a PKCE config must have none, checked on the validated fields | not executed | Config.CodeWithoutSecretAccepted | Config.ParseConfigIntended |
| authentication/oauth/auth-service/saxo_auth_service.py:157-172 | `login` waits `while not self._auth_received_callback`, but only the callback handler (lines 190, 209) and `logout` (line 218) ever reset that flag, so a second `login` on the same object skips the wait and compares its new state with the first callback's state | log in successfully, then call `login` again without `logout`: the new random state differs from the stored one, so it raises "received state does not match original state" before any new callback arrives | each `login` waits for its own callback, as if the flag were cleared before the wait | not executed | AuthService.RepeatedLoginFails | AuthService.RepeatedLoginIntended |

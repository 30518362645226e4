/** `google_login` of the older binary: the authorization code grant with
    the fixed scopes openid, email and profile and without PKCE; failures of
    the OpenID library end the process instead of being returned. */
module LegacyLoginFlow {
  import opened Wrappers
  import opened Errors
  import opened Records
  import opened Paths
  import opened FileSystem
  import opened LegacyConfigStore
  import opened OpenId
  import opened Callback
  import opened LoginFlow

  const FixedScopes: seq<string> := ["openid", "email", "profile"]
  const NoIdTokenInExtraFields: string := "No ID token present in extra fields"
  const NoRefreshTokenInResponse: string := "There was no refresh token in the response"
  const NoScopesInResponse: string := "There were no scopes in the response"
  const NoLoginResponse: string := "Could not get a response from the login flow"

  /** `SimpleError::with("Invalid redirect URL", e)`. */
  function InvalidRedirect(parseError: string): string {
    "Invalid redirect URL, " + parseError
  }

  /** The request shown in the browser: offline access, the consent prompt
      and the three fixed scopes. */
  function LegacyAuthorizeRequest(secrets: Secrets): AuthRequest {
    var request := NewAuthRequest(secrets.csrfState, secrets.nonce);
    var request := AddExtraParam(request, "access_type", "offline");
    var request := AddPrompt(request, Consent);
    var request := AddScope(request, "openid");
    var request := AddScope(request, "email");
    AddScope(request, "profile")
  }

  /** Whatever the profile's scopes, the older login asks for exactly openid,
      email and profile, and sends no PKCE challenge. */
  lemma LegacyAuthorizeRequestIsFixed(secrets: Secrets)
    ensures LegacyAuthorizeRequest(secrets)
            == AuthRequest(secrets.csrfState, secrets.nonce, [("access_type", "offline")], [Consent], None, FixedScopes)
  {
  }

  /** Lines 148-174: the ID token is present and its claims verify against
      the nonce (a failure there ends the process), then the refresh token,
      then the scopes. */
  function LegacyCheck(p: ProviderOracle, resp: TokenResponse, nonce: string, now: nat): Outcome<Grant, SimpleError> {
    match resp.idToken
    case None => Returned(Err(SimpleError(NoIdTokenInExtraFields)))
    case Some(idToken) =>
      match p.claimsExpiry(idToken, Some(nonce))
      case None => Exits(IdTokenUnverified)
      case Some(idExpiry) =>
        match resp.refreshToken
        case None => Returned(Err(SimpleError(NoRefreshTokenInResponse)))
        case Some(refreshToken) =>
          match resp.scopes
          case None => Returned(Err(SimpleError(NoScopesInResponse)))
          case Some(scopes) =>
            Returned(Ok(Grant(scopes, refreshToken, Token(idToken, idExpiry),
                              Token(resp.accessToken, AccessExpiry(now, resp.expiresIn)))))
  }

  /** The older checks accept exactly the responses the library's accept,
      with the same grant; each rejection is the library's rejection with
      the older message, and a failed verification exits through `handle_error`. */
  lemma LegacyCheckMatchesLibrary(p: ProviderOracle, resp: TokenResponse, nonce: string, now: nat)
    ensures var o := LegacyCheck(p, resp, nonce, now);
            var r := CheckResponse(p, resp, nonce, now);
            && (r.Ok? <==> o.Returned? && o.result.Ok?)
            && (r.Ok? ==> o == Returned(Ok(r.value)))
            && (r == Err(NoIdToken) <==> o == Returned(Err(SimpleError(NoIdTokenInExtraFields))))
            && (r == Err(OpenIdError(IdTokenUnverified)) <==> o == Exits(IdTokenUnverified))
            && (r == Err(NoRefreshToken) <==> o == Returned(Err(SimpleError(NoRefreshTokenInResponse))))
            && (r == Err(NoScopes) <==> o == Returned(Err(SimpleError(NoScopesInResponse))))
  {
  }

  /** Everything an older login does. */
  datatype LegacyLoginEffect = LegacyLoginEffect(
    outcome: Outcome<(), SimpleError>,
    record: ConfigRecord,
    fs: FsState,
    calls: seq<Call>,
    shown: seq<AuthRequest>,
    replies: seq<(nat, string)>)

  /** Lines 130-184: from the state comparison to the save. */
  function LegacyFinishSpec(c: ConfigRecord, s: FsState, home: Option<Path>, p: ProviderOracle,
                            secrets: Secrets, now: nat, params: CallbackParams): LegacyLoginEffect
  {
    if params.state != secrets.csrfState then
      LegacyLoginEffect(Returned(Err(SimpleError(CsrfMessage))), c, s, [], [], [])
    else
      var calls := [CodeExchange(params.code, None)];
      match p.codeGrant(params.code, None)
      case None => LegacyLoginEffect(Exits(TokenEndpointFailed), c, s, calls, [], [])
      case Some(resp) => LegacyGrantSpec(c, s, home, p, secrets.nonce, now, resp).(calls := calls)
  }

  /** Lines 143-184: the checks of the token response, then the update and
      the save. */
  function LegacyGrantSpec(c: ConfigRecord, s: FsState, home: Option<Path>, p: ProviderOracle,
                           nonce: string, now: nat, resp: TokenResponse): LegacyLoginEffect
  {
    match LegacyCheck(p, resp, nonce, now)
    case Aborted(why) => LegacyLoginEffect(Aborted(why), c, s, [], [], [])
    case Exits(m) => LegacyLoginEffect(Exits(m), c, s, [], [], [])
    case Returned(Err(e)) => LegacyLoginEffect(Returned(Err(e)), c, s, [], [], [])
    case Returned(Ok(g)) =>
      var updated := Granted(c, g);
      var (r, s') := LegacySaveOutcome(s, home, updated);
      LegacyLoginEffect(Returned(r), updated, s', [], [], [])
  }

  /** Lines 87-184 for the first accepted connection `i`: every parsing step
      and the reply's write are `unwrap`ped. */
  function LegacyConnectionSpec(c: ConfigRecord, s: FsState, home: Option<Path>, p: ProviderOracle, codec: UrlCodec,
                                secrets: Secrets, now: nat, i: nat, conn: Incoming): LegacyLoginEffect
    requires conn.Accepted?
  {
    match ParseCallback(codec, conn.requestLine)
    case Err(why) => LegacyLoginEffect(Aborted(why), c, s, [], [], [])
    case Ok(params) =>
      if !conn.writeOk then LegacyLoginEffect(Aborted(WriteFailed), c, s, [], [], [(i, Reply)])
      else LegacyFinishSpec(c, s, home, p, secrets, now, params).(replies := [(i, Reply)])
  }

  /** Lines 85-190: bind the listener, then serve the first accepted connection. */
  function LegacyCallbackSpec(c: ConfigRecord, s: FsState, home: Option<Path>, p: ProviderOracle, codec: UrlCodec,
                              bindOk: bool, incoming: seq<Incoming>, secrets: Secrets, now: nat): LegacyLoginEffect
  {
    if !bindOk then LegacyLoginEffect(Aborted(BindFailed), c, s, [], [], [])
    else
      match FirstAccepted(incoming)
      case None => LegacyLoginEffect(Returned(Err(SimpleError(NoLoginResponse))), c, s, [], [], [])
      case Some(i) => LegacyConnectionSpec(c, s, home, p, codec, secrets, now, i, incoming[i])
  }

  /** `google_login` of the older binary; `parseError` is the URL parser's
      message for a redirect URL it rejects. */
  function LegacyLoginSpec(c: ConfigRecord, s: FsState, home: Option<Path>, p: ProviderOracle, codec: UrlCodec,
                           parseError: string, browserFailure: Option<IoKind>, bindOk: bool,
                           incoming: seq<Incoming>, secrets: Secrets, now: nat): LegacyLoginEffect
  {
    if !codec.parses(c.redirectUrl) then
      LegacyLoginEffect(Returned(Err(SimpleError(InvalidRedirect(parseError)))), c, s, [], [], [])
    else if !p.discovers then LegacyLoginEffect(Exits(DiscoveryFailed), c, s, [Discovery], [], [])
    else
      var request := LegacyAuthorizeRequest(secrets);
      if browserFailure.Some? then
        LegacyLoginEffect(Returned(Err(SimpleError(IoText(browserFailure.value)))), c, s, [Discovery], [request], [])
      else
        var e := LegacyCallbackSpec(c, s, home, p, codec, bindOk, incoming, secrets, now);
        e.(calls := [Discovery] + e.calls, shown := [request])
  }

  /** A login either leaves the profile and the filesystem as they were, or
      its outcome is that of saving the updated profile; ending the process never
      changes either. */
  lemma LegacyLoginChangesOnlyBySaving(c: ConfigRecord, s: FsState, home: Option<Path>, p: ProviderOracle,
                                       codec: UrlCodec, parseError: string, browserFailure: Option<IoKind>,
                                       bindOk: bool, incoming: seq<Incoming>, secrets: Secrets, now: nat)
    ensures var e := LegacyLoginSpec(c, s, home, p, codec, parseError, browserFailure, bindOk, incoming, secrets, now);
            && ((e.record == c && e.fs == s)
                || (e.outcome == Returned(LegacySaveOutcome(s, home, e.record).0) && e.fs == LegacySaveOutcome(s, home, e.record).1))
            && (!e.outcome.Returned? ==> e.record == c && e.fs == s)
  {
    if codec.parses(c.redirectUrl) && p.discovers && browserFailure.None? && bindOk && FirstAccepted(incoming).Some? {
      var i := FirstAccepted(incoming).value;
      var parsed := ParseCallback(codec, incoming[i].requestLine);
      if parsed.Ok? && incoming[i].writeOk && parsed.value.state == secrets.csrfState {
        var resp := p.codeGrant(parsed.value.code, None);
        if resp.Some? {
          LegacyGrantChangesOnlyBySaving(c, s, home, p, secrets.nonce, now, resp.value);
        }
      }
    }
  }

  lemma LegacyGrantChangesOnlyBySaving(c: ConfigRecord, s: FsState, home: Option<Path>, p: ProviderOracle,
                                       nonce: string, now: nat, resp: TokenResponse)
    ensures var e := LegacyGrantSpec(c, s, home, p, nonce, now, resp);
            && ((e.record == c && e.fs == s)
                || (e.outcome == Returned(LegacySaveOutcome(s, home, e.record).0) && e.fs == LegacySaveOutcome(s, home, e.record).1))
            && (!e.outcome.Returned? ==> e.record == c && e.fs == s)
  {
  }

  /** A callback whose `state` differs from the one sent ends in the CSRF
      error after the reply was written; no code is exchanged and nothing
      changes. */
  lemma LegacyCsrfMismatchStopsLogin(c: ConfigRecord, s: FsState, home: Option<Path>, p: ProviderOracle, codec: UrlCodec,
                                     parseError: string, incoming: seq<Incoming>, secrets: Secrets, now: nat, i: nat)
    requires codec.parses(c.redirectUrl) && p.discovers
    requires FirstAccepted(incoming) == Some(i) && incoming[i].writeOk
    requires ParseCallback(codec, incoming[i].requestLine).Ok?
    requires ParseCallback(codec, incoming[i].requestLine).value.state != secrets.csrfState
    ensures LegacyLoginSpec(c, s, home, p, codec, parseError, None, true, incoming, secrets, now)
            == LegacyLoginEffect(Returned(Err(SimpleError(CsrfMessage))), c, s, [Discovery],
                                 [LegacyAuthorizeRequest(secrets)], [(i, Reply)])
  {
  }

  /** The only code exchange is for the first accepted connection whose
      `state` matched, and it carries no PKCE verifier. */
  lemma LegacyExchangeWithoutPkce(c: ConfigRecord, s: FsState, home: Option<Path>, p: ProviderOracle, codec: UrlCodec,
                                  parseError: string, browserFailure: Option<IoKind>, bindOk: bool,
                                  incoming: seq<Incoming>, secrets: Secrets, now: nat, k: nat)
    requires var e := LegacyLoginSpec(c, s, home, p, codec, parseError, browserFailure, bindOk, incoming, secrets, now);
             k < |e.calls| && e.calls[k].CodeExchange?
    ensures FirstAccepted(incoming).Some?
    ensures var i := FirstAccepted(incoming).value;
            var parsed := ParseCallback(codec, incoming[i].requestLine);
            && incoming[i].writeOk && parsed.Ok? && parsed.value.state == secrets.csrfState
            && LegacyLoginSpec(c, s, home, p, codec, parseError, browserFailure, bindOk, incoming, secrets, now).calls[k]
               == CodeExchange(parsed.value.code, None)
  {
    if codec.parses(c.redirectUrl) && p.discovers && browserFailure.None? && bindOk && FirstAccepted(incoming).Some? {
      var i := FirstAccepted(incoming).value;
      var parsed := ParseCallback(codec, incoming[i].requestLine);
      if parsed.Ok? && incoming[i].writeOk {
        LegacyFinishCalls(c, s, home, p, secrets, now, parsed.value);
      }
    }
  }

  /** The state comparison and the code exchange are the only requests after discovery. */
  lemma LegacyFinishCalls(c: ConfigRecord, s: FsState, home: Option<Path>, p: ProviderOracle,
                          secrets: Secrets, now: nat, params: CallbackParams)
    ensures LegacyFinishSpec(c, s, home, p, secrets, now, params).calls
            == if params.state == secrets.csrfState then [CodeExchange(params.code, None)] else []
  {
  }

  /** Failures of the OpenID library end the process through `handle_error`:
      discovery, the token endpoint and the verification of the ID token's
      claims. */
  lemma {:induction false} LegacyLibraryFailuresExit(c: ConfigRecord, s: FsState, home: Option<Path>, p: ProviderOracle, codec: UrlCodec,
                                                     parseError: string, incoming: seq<Incoming>, secrets: Secrets, now: nat, i: nat)
    requires codec.parses(c.redirectUrl)
    requires FirstAccepted(incoming) == Some(i) && incoming[i].writeOk
    requires ParseCallback(codec, incoming[i].requestLine).Ok?
    requires ParseCallback(codec, incoming[i].requestLine).value.state == secrets.csrfState
    ensures var e := LegacyLoginSpec(c, s, home, p, codec, parseError, None, true, incoming, secrets, now);
            var code := ParseCallback(codec, incoming[i].requestLine).value.code;
            && (!p.discovers ==> e.outcome == Exits(DiscoveryFailed))
            && (p.discovers && p.codeGrant(code, None).None? ==> e.outcome == Exits(TokenEndpointFailed))
            && (p.discovers && p.codeGrant(code, None).Some? && p.codeGrant(code, None).value.idToken.Some?
                && p.claimsExpiry(p.codeGrant(code, None).value.idToken.value, Some(secrets.nonce)).None?
                ==> e.outcome == Exits(IdTokenUnverified))
            && (!e.outcome.Returned? ==> e.record == c && e.fs == s)
  {
    if p.discovers {
      var params := ParseCallback(codec, incoming[i].requestLine).value;
      var f := LegacyFinishSpec(c, s, home, p, secrets, now, params);
      assert LegacyConnectionSpec(c, s, home, p, codec, secrets, now, i, incoming[i]) == f.(replies := [(i, Reply)]);
      assert LegacyCallbackSpec(c, s, home, p, codec, true, incoming, secrets, now) == f.(replies := [(i, Reply)]);
      LegacyFinishFailuresExit(c, s, home, p, secrets, now, params);
    }
  }

  /** The token endpoint's and the claims' failures after a matching `state`. */
  lemma LegacyFinishFailuresExit(c: ConfigRecord, s: FsState, home: Option<Path>, p: ProviderOracle,
                                 secrets: Secrets, now: nat, params: CallbackParams)
    requires params.state == secrets.csrfState
    ensures var f := LegacyFinishSpec(c, s, home, p, secrets, now, params);
            var grant := p.codeGrant(params.code, None);
            && (grant.None? ==> f.outcome == Exits(TokenEndpointFailed))
            && (grant.Some? && grant.value.idToken.Some?
                && p.claimsExpiry(grant.value.idToken.value, Some(secrets.nonce)).None?
                ==> f.outcome == Exits(IdTokenUnverified))
            && (!f.outcome.Returned? ==> f.record == c && f.fs == s)
  {
    if p.codeGrant(params.code, None).Some? {
      LegacyGrantChangesOnlyBySaving(c, s, home, p, secrets.nonce, now, p.codeGrant(params.code, None).value);
    }
  }

  /** After a successful login the profile holds the granted scopes, the new
      refresh token and the two tokens; its identity is unchanged and it
      reads back from the home directory. */
  lemma LegacyLoginSuccess(c: ConfigRecord, s: FsState, home: Option<Path>, p: ProviderOracle, codec: UrlCodec,
                           parseError: string, incoming: seq<Incoming>, secrets: Secrets, now: nat, i: nat,
                           resp: TokenResponse)
    requires FirstAccepted(incoming) == Some(i)
    requires ParseCallback(codec, incoming[i].requestLine).Ok?
    requires p.codeGrant(ParseCallback(codec, incoming[i].requestLine).value.code, None) == Some(resp)
    requires LegacyLoginSpec(c, s, home, p, codec, parseError, None, true, incoming, secrets, now).outcome == Returned(Ok(()))
    requires PlainName(c.name)
    requires home.Some? ==> var k := Canon(GoogauthFile(home, c.name).value);
                            (Open, k) !in s.faults && (Read, k) !in s.faults
    ensures resp.idToken.Some? && resp.refreshToken.Some? && resp.scopes.Some?
    ensures p.claimsExpiry(resp.idToken.value, Some(secrets.nonce)).Some?
    ensures var e := LegacyLoginSpec(c, s, home, p, codec, parseError, None, true, incoming, secrets, now);
            && e.record == c.(scopes := resp.scopes.value, refreshToken := resp.refreshToken,
                              idToken := Some(Token(resp.idToken.value, p.claimsExpiry(resp.idToken.value, Some(secrets.nonce)).value)),
                              accessToken := Some(Token(resp.accessToken, AccessExpiry(now, resp.expiresIn))))
            && LegacyReadConfig(e.fs, home, c.name) == Some(e.record)
  {
    var e := LegacyLoginSpec(c, s, home, p, codec, parseError, None, true, incoming, secrets, now);
    var g := LegacyCheck(p, resp, secrets.nonce, now);
    assert g.Returned? && g.result.Ok?;
    assert e.record == Granted(c, g.result.value);
    LegacySaveThenRead(s, home, e.record);
  }

  /** Lines 130-184, after the reply was written. */
  method LegacyFinishLogin(config: ConfigFile, home: Option<Path>, fs: FileSystem, provider: Provider,
                           secrets: Secrets, now: nat, params: CallbackParams) returns (o: Outcome<(), SimpleError>)
    modifies config, fs, provider
    ensures var e := LegacyFinishSpec(old(config.Record()), old(fs.state), home, provider.oracle, secrets, now, params);
            && o == e.outcome && config.Record() == e.record && fs.state == e.fs
            && provider.calls == old(provider.calls) + e.calls
  {
    if params.state != secrets.csrfState {
      return Returned(Err(SimpleError(CsrfMessage)));
    }
    var response := provider.ExchangeCode(params.code, None);
    if response.None? {
      return Exits(TokenEndpointFailed);
    }
    o := LegacyStoreGrant(config, home, fs, provider.oracle, secrets.nonce, now, response.value);
  }

  /** Lines 143-184. */
  method LegacyStoreGrant(config: ConfigFile, home: Option<Path>, fs: FileSystem, p: ProviderOracle,
                          nonce: string, now: nat, tokens: TokenResponse) returns (o: Outcome<(), SimpleError>)
    modifies config, fs
    ensures var e := LegacyGrantSpec(old(config.Record()), old(fs.state), home, p, nonce, now, tokens);
            && o == e.outcome && config.Record() == e.record && fs.state == e.fs
  {
    var accessTokenExpires := AccessExpiry(now, tokens.expiresIn);
    if tokens.idToken.None? {
      return Returned(Err(SimpleError(NoIdTokenInExtraFields)));
    }
    var idToken := tokens.idToken.value;
    var idTokenExpiry := p.claimsExpiry(idToken, Some(nonce));
    if idTokenExpiry.None? {
      return Exits(IdTokenUnverified);
    }
    if tokens.refreshToken.None? {
      return Returned(Err(SimpleError(NoRefreshTokenInResponse)));
    }
    var refreshToken := tokens.refreshToken.value;
    if tokens.scopes.None? {
      return Returned(Err(SimpleError(NoScopesInResponse)));
    }
    ghost var g := Grant(tokens.scopes.value, refreshToken, Token(idToken, idTokenExpiry.value),
                         Token(tokens.accessToken, accessTokenExpires));
    assert LegacyCheck(p, tokens, nonce, now) == Returned(Ok(g));
    ghost var updated := Granted(config.Record(), g);
    config.scopes := tokens.scopes.value;
    config.refreshToken := Some(refreshToken);
    config.idToken := Some(Token(idToken, idTokenExpiry.value));
    config.accessToken := Some(Token(tokens.accessToken, accessTokenExpires));
    assert config.Record() == updated;
    var saved := LegacySaveConfig(config, home, fs);
    return Returned(saved);
  }

  /** Lines 87-184 for an accepted connection `i`. */
  method LegacyServeConnection(config: ConfigFile, home: Option<Path>, fs: FileSystem, provider: Provider,
                               listener: Listener, codec: UrlCodec, secrets: Secrets, now: nat, i: nat)
    returns (o: Outcome<(), SimpleError>)
    requires i < |listener.incoming| && listener.incoming[i].Accepted?
    modifies config, fs, provider, listener
    ensures var e := LegacyConnectionSpec(old(config.Record()), old(fs.state), home, provider.oracle, codec,
                                          secrets, now, i, listener.incoming[i]);
            && o == e.outcome && config.Record() == e.record && fs.state == e.fs
            && provider.calls == old(provider.calls) + e.calls
            && listener.replies == old(listener.replies) + e.replies
  {
    var parsed := ParseCallback(codec, listener.incoming[i].requestLine);
    if parsed.Err? {
      return Aborted(parsed.error);
    }
    var written := listener.Send(i, Reply);
    if !written {
      return Aborted(WriteFailed);
    }
    o := LegacyFinishLogin(config, home, fs, provider, secrets, now, parsed.value);
  }

  /** `google_login` of the older binary. */
  method LegacyGoogleLogin(config: ConfigFile, home: Option<Path>, fs: FileSystem, provider: Provider,
                           browser: Browser, listener: Listener, codec: UrlCodec, parseError: string,
                           secrets: Secrets, now: nat)
    returns (o: Outcome<(), SimpleError>)
    modifies config, fs, provider, browser, listener
    ensures var e := LegacyLoginSpec(old(config.Record()), old(fs.state), home, provider.oracle, codec, parseError,
                                     browser.failure, listener.bindOk, listener.incoming, secrets, now);
            && o == e.outcome && config.Record() == e.record && fs.state == e.fs
            && provider.calls == old(provider.calls) + e.calls
            && browser.shown == old(browser.shown) + e.shown
            && listener.replies == old(listener.replies) + e.replies
  {
    if !codec.parses(config.redirectUrl) {
      return Returned(Err(SimpleError(InvalidRedirect(parseError))));
    }
    var discovered := provider.Discover();
    if !discovered {
      return Exits(DiscoveryFailed);
    }
    var request := NewAuthRequest(secrets.csrfState, secrets.nonce);
    request := AddExtraParam(request, "access_type", "offline");
    request := AddPrompt(request, Consent);
    request := AddScope(request, "openid");
    request := AddScope(request, "email");
    request := AddScope(request, "profile");
    assert request == LegacyAuthorizeRequest(secrets);
    var browserResult := browser.Open(request);
    if browserResult.Err? {
      return Returned(Err(SimpleError(IoText(browserResult.error))));
    }
    ghost var before := config.Record();
    ghost var callback := LegacyCallbackSpec(before, fs.state, home, provider.oracle, codec,
                                             listener.bindOk, listener.incoming, secrets, now);
    assert LegacyLoginSpec(before, fs.state, home, provider.oracle, codec, parseError, browser.failure,
                           listener.bindOk, listener.incoming, secrets, now)
           == callback.(calls := [Discovery] + callback.calls, shown := [request]);
    o := LegacyAwaitCallback(config, home, fs, provider, listener, codec, secrets, now);
    AppendTwice(old(provider.calls), [Discovery], callback.calls);
  }

  /** Lines 85-190: the redirect server's accept loop. */
  method LegacyAwaitCallback(config: ConfigFile, home: Option<Path>, fs: FileSystem, provider: Provider,
                             listener: Listener, codec: UrlCodec, secrets: Secrets, now: nat)
    returns (o: Outcome<(), SimpleError>)
    modifies config, fs, provider, listener
    ensures var e := LegacyCallbackSpec(old(config.Record()), old(fs.state), home, provider.oracle, codec,
                                        listener.bindOk, listener.incoming, secrets, now);
            && o == e.outcome && config.Record() == e.record && fs.state == e.fs
            && provider.calls == old(provider.calls) + e.calls
            && listener.replies == old(listener.replies) + e.replies
  {
    if !listener.bindOk {
      return Aborted(BindFailed);
    }
    var i := 0;
    while i < |listener.incoming|
      invariant 0 <= i <= |listener.incoming|
      invariant forall j :: 0 <= j < i ==> listener.incoming[j].AcceptFailed?
      invariant config.Record() == old(config.Record()) && fs.state == old(fs.state)
      invariant provider.calls == old(provider.calls)
      invariant listener.replies == old(listener.replies)
    {
      if listener.incoming[i].Accepted? {
        assert FirstAccepted(listener.incoming) == Some(i);
        o := LegacyServeConnection(config, home, fs, provider, listener, codec, secrets, now, i);
        return;
      }
      i := i + 1;
    }
    return Returned(Err(SimpleError(NoLoginResponse)));
  }
}

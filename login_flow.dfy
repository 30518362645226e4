/** `google_login` of the library crate: the authorization code grant with
    PKCE and the `state` check, the callback on the local redirect server,
    the ordered response checks, and the in-place update and save of the
    profile. */
module LoginFlow {
  import opened Wrappers
  import opened Errors
  import opened Records
  import opened FileSystem
  import opened ConfigStore
  import opened OpenId
  import opened Callback

  const BindFailed: string := "127.0.0.1:8080 could not be bound"
  const WriteFailed: string := "the reply could not be written"

  /** The request shown in the browser: offline access, the consent prompt,
      the PKCE challenge, then the profile's scopes. */
  function AuthorizeRequest(scopes: seq<string>, secrets: Secrets): AuthRequest {
    var request := NewAuthRequest(secrets.csrfState, secrets.nonce);
    var request := AddExtraParam(request, "access_type", "offline");
    var request := AddPrompt(request, Consent);
    var request := SetPkceChallenge(request, secrets.pkceChallenge);
    AddScopes(request, scopes)
  }

  lemma AuthorizeRequestCarries(scopes: seq<string>, secrets: Secrets)
    ensures AuthorizeRequest(scopes, secrets)
            == AuthRequest(secrets.csrfState, secrets.nonce, [("access_type", "offline")], [Consent],
                           Some(secrets.pkceChallenge), scopes)
  {
    var r := SetPkceChallenge(AddPrompt(AddExtraParam(NewAuthRequest(secrets.csrfState, secrets.nonce),
                                                      "access_type", "offline"), Consent), secrets.pkceChallenge);
    AddScopesAppends(r, scopes);
    assert [] + scopes == scopes;
  }

  /** What a response that passed every check contributes to the profile. */
  datatype Grant = Grant(scopes: seq<string>, refreshToken: string, idToken: Token, accessToken: Token)

  /** Lines 140-157: the ID token is present and its claims verify against
      the nonce, then the refresh token, then the scopes. The second
      `id_token()` lookup reads the same field as the first and is folded
      into it. */
  function CheckResponse(p: ProviderOracle, resp: TokenResponse, nonce: string, now: nat): (r: Result<Grant, LibError>)
    ensures resp.idToken.None? ==> r == Err(NoIdToken)
    ensures resp.idToken.Some? && p.claimsExpiry(resp.idToken.value, Some(nonce)).None? ==>
              r == Err(OpenIdError(IdTokenUnverified))
    ensures resp.idToken.Some? && p.claimsExpiry(resp.idToken.value, Some(nonce)).Some? ==>
              && (resp.refreshToken.None? ==> r == Err(NoRefreshToken))
              && (resp.refreshToken.Some? && resp.scopes.None? ==> r == Err(NoScopes))
    ensures r.Err? ==> r.error in {NoIdToken, OpenIdError(IdTokenUnverified), NoRefreshToken, NoScopes}
    ensures r.Ok? ==>
              && r.value.scopes == resp.scopes.value
              && r.value.refreshToken == resp.refreshToken.value
              && r.value.idToken == Token(resp.idToken.value, p.claimsExpiry(resp.idToken.value, Some(nonce)).value)
              && r.value.accessToken == Token(resp.accessToken, AccessExpiry(now, resp.expiresIn))
  {
    match resp.idToken
    case None => Err(NoIdToken)
    case Some(idToken) =>
      match p.claimsExpiry(idToken, Some(nonce))
      case None => Err(OpenIdError(IdTokenUnverified))
      case Some(idExpiry) =>
        match resp.refreshToken
        case None => Err(NoRefreshToken)
        case Some(refreshToken) =>
          match resp.scopes
          case None => Err(NoScopes)
          case Some(scopes) =>
            Ok(Grant(scopes, refreshToken, Token(idToken, idExpiry),
                     Token(resp.accessToken, AccessExpiry(now, resp.expiresIn))))
  }

  /** Lines 159-165: the four fields the login writes. */
  function Granted(c: ConfigRecord, g: Grant): ConfigRecord {
    c.(scopes := g.scopes, refreshToken := Some(g.refreshToken),
       idToken := Some(g.idToken), accessToken := Some(g.accessToken))
  }

  /** Everything a login does: its outcome, the profile in memory afterwards,
      the filesystem, and what was sent to the provider, shown in the browser
      and written back to connections. */
  datatype LoginEffect = LoginEffect(
    outcome: Outcome<(), LibError>,
    record: ConfigRecord,
    fs: FsState,
    calls: seq<Call>,
    shown: seq<AuthRequest>,
    replies: seq<(nat, string)>)

  /** From the state comparison to the save. */
  function FinishSpec(c: ConfigRecord, s: FsState, base: ConfigBasePath, p: ProviderOracle,
                      secrets: Secrets, now: nat, params: CallbackParams): LoginEffect
  {
    if params.state != secrets.csrfState then LoginEffect(Returned(Err(TokenCsrfError)), c, s, [], [], [])
    else
      var calls := [CodeExchange(params.code, Some(secrets.pkceVerifier))];
      match p.codeGrant(params.code, Some(secrets.pkceVerifier))
      case None => LoginEffect(Returned(Err(OpenIdError(TokenEndpointFailed))), c, s, calls, [], [])
      case Some(resp) =>
        match CheckResponse(p, resp, secrets.nonce, now)
        case Err(e) => LoginEffect(Returned(Err(e)), c, s, calls, [], [])
        case Ok(g) =>
          var updated := Granted(c, g);
          var (r, s') := SaveOutcome(s, base, updated);
          LoginEffect(Returned(r), updated, s', calls, [], [])
  }

  /** Serving connection `i`, the first one accepted. */
  function ConnectionSpec(c: ConfigRecord, s: FsState, base: ConfigBasePath, p: ProviderOracle, codec: UrlCodec,
                          secrets: Secrets, now: nat, i: nat, conn: Incoming): LoginEffect
    requires conn.Accepted?
  {
    match ParseCallback(codec, conn.requestLine)
    case Err(why) => LoginEffect(Aborted(why), c, s, [], [], [])
    case Ok(params) =>
      if !conn.writeOk then LoginEffect(Aborted(WriteFailed), c, s, [], [], [(i, Reply)])
      else FinishSpec(c, s, base, p, secrets, now, params).(replies := [(i, Reply)])
  }

  /** Lines 75-171: bind the listener, then serve the first accepted connection. */
  function CallbackSpec(c: ConfigRecord, s: FsState, base: ConfigBasePath, p: ProviderOracle, codec: UrlCodec,
                        bindOk: bool, incoming: seq<Incoming>, secrets: Secrets, now: nat): LoginEffect
  {
    if !bindOk then LoginEffect(Aborted(BindFailed), c, s, [], [], [])
    else
      match FirstAccepted(incoming)
      case None => LoginEffect(Returned(Err(NoResponse)), c, s, [], [], [])
      case Some(i) => ConnectionSpec(c, s, base, p, codec, secrets, now, i, incoming[i])
  }

  /** `google_login` from the redirect URL check to the result of the save. */
  function LoginSpec(c: ConfigRecord, s: FsState, base: ConfigBasePath, p: ProviderOracle, codec: UrlCodec,
                     browserFailure: Option<IoKind>, bindOk: bool, incoming: seq<Incoming>,
                     secrets: Secrets, now: nat): LoginEffect
  {
    if !codec.parses(c.redirectUrl) then LoginEffect(Returned(Err(UrlError)), c, s, [], [], [])
    else if !p.discovers then LoginEffect(Returned(Err(OpenIdError(DiscoveryFailed))), c, s, [Discovery], [], [])
    else
      var request := AuthorizeRequest(c.scopes, secrets);
      if browserFailure.Some? then
        LoginEffect(Returned(Err(IoError(browserFailure.value))), c, s, [Discovery], [request], [])
      else
        var e := CallbackSpec(c, s, base, p, codec, bindOk, incoming, secrets, now);
        e.(calls := [Discovery] + e.calls, shown := [request])
  }

  /** The profile was written by the final save, and the outcome is the save's. */
  predicate Saved(e: LoginEffect, s: FsState, base: ConfigBasePath) {
    e.outcome == Returned(SaveOutcome(s, base, e.record).0) && e.fs == SaveOutcome(s, base, e.record).1
  }

  /** The library has no `handle_error`: its login returns its failures or
      panics, and never prints and exits on its own. */
  lemma LoginNeverExits(c: ConfigRecord, s: FsState, base: ConfigBasePath, p: ProviderOracle, codec: UrlCodec,
                        browserFailure: Option<IoKind>, bindOk: bool, incoming: seq<Incoming>,
                        secrets: Secrets, now: nat)
    ensures !LoginSpec(c, s, base, p, codec, browserFailure, bindOk, incoming, secrets, now).outcome.Exits?
  {
  }

  /** A login either leaves the profile and the filesystem as they were, or
      its outcome is that of saving the updated profile; every failure that is
      not the save's own leaves both untouched. */
  lemma LoginChangesOnlyBySaving(c: ConfigRecord, s: FsState, base: ConfigBasePath, p: ProviderOracle, codec: UrlCodec,
                                 browserFailure: Option<IoKind>, bindOk: bool, incoming: seq<Incoming>,
                                 secrets: Secrets, now: nat)
    ensures var e := LoginSpec(c, s, base, p, codec, browserFailure, bindOk, incoming, secrets, now);
            && ((e.record == c && e.fs == s) || Saved(e, s, base))
            && (e.outcome.Aborted? ==> e.record == c && e.fs == s)
            && ((e.outcome.Returned? && e.outcome.result.Err?
                 && !e.outcome.result.error.IoError? && !e.outcome.result.error.JsonError?)
                ==> e.record == c && e.fs == s)
  {
    var e := LoginSpec(c, s, base, p, codec, browserFailure, bindOk, incoming, secrets, now);
    if codec.parses(c.redirectUrl) && p.discovers && browserFailure.None? && bindOk && FirstAccepted(incoming).Some? {
      var i := FirstAccepted(incoming).value;
      var parsed := ParseCallback(codec, incoming[i].requestLine);
      if parsed.Ok? && incoming[i].writeOk && parsed.value.state == secrets.csrfState {
        var params := parsed.value;
        var resp := p.codeGrant(params.code, Some(secrets.pkceVerifier));
        if resp.Some? && CheckResponse(p, resp.value, secrets.nonce, now).Ok? {
          var updated := Granted(c, CheckResponse(p, resp.value, secrets.nonce, now).value);
          assert e.record == updated;
          var out := SaveOutcome(s, base, updated);
          assert e.outcome == Returned(out.0) && e.fs == out.1;
          assert out.0.Err? ==> out.0.error.IoError? || out.0.error.JsonError?;
        }
      }
    }
  }

  /** A callback whose `state` differs from the one sent ends in
      `TokenCsrfError` after the reply was written: the code is never
      exchanged, and the profile and the filesystem are left as they were. */
  lemma CsrfMismatchStopsLogin(c: ConfigRecord, s: FsState, base: ConfigBasePath, p: ProviderOracle, codec: UrlCodec,
                               incoming: seq<Incoming>, secrets: Secrets, now: nat, i: nat)
    requires codec.parses(c.redirectUrl) && p.discovers
    requires FirstAccepted(incoming) == Some(i) && incoming[i].writeOk
    requires ParseCallback(codec, incoming[i].requestLine).Ok?
    requires ParseCallback(codec, incoming[i].requestLine).value.state != secrets.csrfState
    ensures LoginSpec(c, s, base, p, codec, None, true, incoming, secrets, now)
            == LoginEffect(Returned(Err(TokenCsrfError)), c, s, [Discovery],
                           [AuthorizeRequest(c.scopes, secrets)], [(i, Reply)])
  {
  }

  /** A code is exchanged only for the first accepted connection, only after
      the reply was written to it, and only when its `state` matches. */
  lemma ExchangeNeedsMatchingState(c: ConfigRecord, s: FsState, base: ConfigBasePath, p: ProviderOracle, codec: UrlCodec,
                                   browserFailure: Option<IoKind>, bindOk: bool, incoming: seq<Incoming>,
                                   secrets: Secrets, now: nat, k: nat)
    requires var e := LoginSpec(c, s, base, p, codec, browserFailure, bindOk, incoming, secrets, now);
             k < |e.calls| && e.calls[k].CodeExchange?
    ensures FirstAccepted(incoming).Some?
    ensures var i := FirstAccepted(incoming).value;
            var parsed := ParseCallback(codec, incoming[i].requestLine);
            && incoming[i].writeOk && parsed.Ok? && parsed.value.state == secrets.csrfState
            && LoginSpec(c, s, base, p, codec, browserFailure, bindOk, incoming, secrets, now).replies == [(i, Reply)]
            && LoginSpec(c, s, base, p, codec, browserFailure, bindOk, incoming, secrets, now).calls[k]
               == CodeExchange(parsed.value.code, Some(secrets.pkceVerifier))
  {
    if codec.parses(c.redirectUrl) && p.discovers && browserFailure.None? && bindOk && FirstAccepted(incoming).Some? {
      var i := FirstAccepted(incoming).value;
      var parsed := ParseCallback(codec, incoming[i].requestLine);
      if parsed.Ok? && incoming[i].writeOk {
        FinishCalls(c, s, base, p, secrets, now, parsed.value);
      }
    }
  }

  /** After the reply, the only request is the code exchange with the PKCE
      verifier, made only when the state matched. */
  lemma FinishCalls(c: ConfigRecord, s: FsState, base: ConfigBasePath, p: ProviderOracle,
                    secrets: Secrets, now: nat, params: CallbackParams)
    ensures FinishSpec(c, s, base, p, secrets, now, params).calls
            == if params.state == secrets.csrfState then [CodeExchange(params.code, Some(secrets.pkceVerifier))] else []
  {
  }

  /** After a successful login the profile holds the granted scopes, the new
      refresh token, the verified ID token with its claims' expiry and the
      access token expiring at `now + expires_in` (or 0); its identity is
      unchanged, the outcome is the save's, and reading it back gives it. */
  lemma LoginSuccess(c: ConfigRecord, s: FsState, base: ConfigBasePath, p: ProviderOracle, codec: UrlCodec,
                     incoming: seq<Incoming>, secrets: Secrets, now: nat, i: nat, resp: TokenResponse)
    requires FirstAccepted(incoming) == Some(i)
    requires ParseCallback(codec, incoming[i].requestLine).Ok?
    requires p.codeGrant(ParseCallback(codec, incoming[i].requestLine).value.code, Some(secrets.pkceVerifier)) == Some(resp)
    requires LoginSpec(c, s, base, p, codec, None, true, incoming, secrets, now).outcome == Returned(Ok(()))
    ensures resp.idToken.Some? && resp.refreshToken.Some? && resp.scopes.Some?
    ensures p.claimsExpiry(resp.idToken.value, Some(secrets.nonce)).Some?
    ensures var e := LoginSpec(c, s, base, p, codec, None, true, incoming, secrets, now);
            && e.record == c.(scopes := resp.scopes.value, refreshToken := resp.refreshToken,
                              idToken := Some(Token(resp.idToken.value, p.claimsExpiry(resp.idToken.value, Some(secrets.nonce)).value)),
                              accessToken := Some(Token(resp.accessToken, AccessExpiry(now, resp.expiresIn))))
            && e.fs == SaveOutcome(s, base, e.record).1
            && ((Open, ProfileKey(c.name, base)) !in s.faults && (Read, ProfileKey(c.name, base)) !in s.faults ==>
                  ReadConfig(e.fs, c.name, base) == Ok(e.record))
  {
    var e := LoginSpec(c, s, base, p, codec, None, true, incoming, secrets, now);
    var g := CheckResponse(p, resp, secrets.nonce, now);
    assert g.Ok?;
    assert e.record == Granted(c, g.value);
    if (Open, ProfileKey(c.name, base)) !in s.faults && (Read, ProfileKey(c.name, base)) !in s.faults {
      SaveThenRead(s, base, e.record);
    }
  }

  /** Failed accepts before the first accepted connection are skipped, and
      nothing after it matters. */
  lemma FirstAcceptedDecides(c: ConfigRecord, s: FsState, base: ConfigBasePath, p: ProviderOracle, codec: UrlCodec,
                             browserFailure: Option<IoKind>, bindOk: bool, failed: seq<Incoming>,
                             conn: Incoming, rest: seq<Incoming>, secrets: Secrets, now: nat)
    requires forall j :: 0 <= j < |failed| ==> failed[j].AcceptFailed?
    requires conn.Accepted?
    ensures LoginSpec(c, s, base, p, codec, browserFailure, bindOk, failed + [conn] + rest, secrets, now)
            == LoginSpec(c, s, base, p, codec, browserFailure, bindOk, failed + [conn], secrets, now)
  {
    var long, short := failed + [conn] + rest, failed + [conn];
    assert long[|failed|] == conn && short[|failed|] == conn;
    assert forall j :: 0 <= j < |failed| ==> long[j] == failed[j] && short[j] == failed[j];
    assert FirstAccepted(long) == Some(|failed|);
    assert FirstAccepted(short) == Some(|failed|);
  }

  /** Once the browser is shown and the listener is bound, the login reports
      `NoResponse` exactly when no connection is ever accepted. */
  lemma NoResponseOnlyWithoutConnections(c: ConfigRecord, s: FsState, base: ConfigBasePath, p: ProviderOracle, codec: UrlCodec,
                                         incoming: seq<Incoming>, secrets: Secrets, now: nat)
    requires codec.parses(c.redirectUrl) && p.discovers
    ensures LoginSpec(c, s, base, p, codec, None, true, incoming, secrets, now).outcome == Returned(Err(NoResponse))
            <==> forall j :: 0 <= j < |incoming| ==> incoming[j].AcceptFailed?
  {
    if FirstAccepted(incoming).Some? {
      var i := FirstAccepted(incoming).value;
      ConnectionNeverNoResponse(c, s, base, p, codec, secrets, now, i, incoming[i]);
    }
  }

  lemma ConnectionNeverNoResponse(c: ConfigRecord, s: FsState, base: ConfigBasePath, p: ProviderOracle, codec: UrlCodec,
                                  secrets: Secrets, now: nat, i: nat, conn: Incoming)
    requires conn.Accepted?
    ensures ConnectionSpec(c, s, base, p, codec, secrets, now, i, conn).outcome != Returned(Err(NoResponse))
  {
    var parsed := ParseCallback(codec, conn.requestLine);
    if parsed.Ok? && conn.writeOk && parsed.value.state == secrets.csrfState {
      var resp := p.codeGrant(parsed.value.code, Some(secrets.pkceVerifier));
      if resp.Some? && CheckResponse(p, resp.value, secrets.nonce, now).Ok? {
        var g := CheckResponse(p, resp.value, secrets.nonce, now);
        assert SaveOutcome(s, base, Granted(c, g.value)).0 != Err(NoResponse);
      }
    }
  }

  /** Lines 120-167, after the reply was written. */
  method FinishLogin(config: ConfigFile, base: ConfigBasePath, fs: FileSystem, provider: Provider,
                     secrets: Secrets, now: nat, params: CallbackParams) returns (o: Outcome<(), LibError>)
    modifies config, fs, provider
    ensures var e := FinishSpec(old(config.Record()), old(fs.state), base, provider.oracle, secrets, now, params);
            && o == e.outcome && config.Record() == e.record && fs.state == e.fs
            && provider.calls == old(provider.calls) + e.calls
  {
    if params.state != secrets.csrfState {
      return Returned(Err(TokenCsrfError));
    }
    var response := provider.ExchangeCode(params.code, Some(secrets.pkceVerifier));
    if response.None? {
      return Returned(Err(OpenIdError(TokenEndpointFailed)));
    }
    var tokens := response.value;
    var accessTokenExpires := AccessExpiry(now, tokens.expiresIn);
    if tokens.idToken.None? {
      return Returned(Err(NoIdToken));
    }
    var idToken := tokens.idToken.value;
    var idTokenExpiry := provider.oracle.claimsExpiry(idToken, Some(secrets.nonce));
    if idTokenExpiry.None? {
      return Returned(Err(OpenIdError(IdTokenUnverified)));
    }
    if tokens.refreshToken.None? {
      return Returned(Err(NoRefreshToken));
    }
    var refreshToken := tokens.refreshToken.value;
    if tokens.scopes.None? {
      return Returned(Err(NoScopes));
    }
    ghost var g := Grant(tokens.scopes.value, refreshToken, Token(idToken, idTokenExpiry.value),
                         Token(tokens.accessToken, accessTokenExpires));
    assert CheckResponse(provider.oracle, tokens, secrets.nonce, now) == Ok(g);
    ghost var updated := Granted(config.Record(), g);
    config.scopes := tokens.scopes.value;
    config.refreshToken := Some(refreshToken);
    config.idToken := Some(Token(idToken, idTokenExpiry.value));
    config.accessToken := Some(Token(tokens.accessToken, accessTokenExpires));
    assert config.Record() == updated;
    var saved := SaveConfig(config, base, fs);
    return Returned(saved);
  }

  /** Lines 77-167 for an accepted connection `i`. */
  method ServeConnection(config: ConfigFile, base: ConfigBasePath, fs: FileSystem, provider: Provider,
                         listener: Listener, codec: UrlCodec, secrets: Secrets, now: nat, i: nat)
    returns (o: Outcome<(), LibError>)
    requires i < |listener.incoming| && listener.incoming[i].Accepted?
    modifies config, fs, provider, listener
    ensures var e := ConnectionSpec(old(config.Record()), old(fs.state), base, provider.oracle, codec,
                                    secrets, now, i, listener.incoming[i]);
            && o == e.outcome && config.Record() == e.record && fs.state == e.fs
            && provider.calls == old(provider.calls) + e.calls
            && listener.replies == old(listener.replies) + e.replies
  {
    var parsed := ParseCallback(codec, listener.incoming[i].requestLine);
    if parsed.Err? {
      return Aborted(parsed.error);
    }
    var written := listener.Send(i, Reply);
    if !written {
      return Aborted(WriteFailed);
    }
    o := FinishLogin(config, base, fs, provider, secrets, now, parsed.value);
  }

  /** `google_login`. */
  method GoogleLogin(config: ConfigFile, base: ConfigBasePath, fs: FileSystem, provider: Provider,
                     browser: Browser, listener: Listener, codec: UrlCodec, secrets: Secrets, now: nat)
    returns (o: Outcome<(), LibError>)
    modifies config, fs, provider, browser, listener
    ensures var e := LoginSpec(old(config.Record()), old(fs.state), base, provider.oracle, codec,
                               browser.failure, listener.bindOk, listener.incoming, secrets, now);
            && o == e.outcome && config.Record() == e.record && fs.state == e.fs
            && provider.calls == old(provider.calls) + e.calls
            && browser.shown == old(browser.shown) + e.shown
            && listener.replies == old(listener.replies) + e.replies
  {
    if !codec.parses(config.redirectUrl) {
      return Returned(Err(UrlError));
    }
    var discovered := provider.Discover();
    if !discovered {
      return Returned(Err(OpenIdError(DiscoveryFailed)));
    }
    var request := NewAuthRequest(secrets.csrfState, secrets.nonce);
    request := AddExtraParam(request, "access_type", "offline");
    request := AddPrompt(request, Consent);
    request := SetPkceChallenge(request, secrets.pkceChallenge);
    request := AddScopes(request, config.scopes);
    assert request == AuthorizeRequest(config.scopes, secrets);
    var browserResult := browser.Open(request);
    if browserResult.Err? {
      return Returned(Err(IoError(browserResult.error)));
    }
    ghost var before := config.Record();
    ghost var callback := CallbackSpec(before, fs.state, base, provider.oracle, codec,
                                       listener.bindOk, listener.incoming, secrets, now);
    assert LoginSpec(before, fs.state, base, provider.oracle, codec, browser.failure, listener.bindOk,
                     listener.incoming, secrets, now)
           == callback.(calls := [Discovery] + callback.calls, shown := [request]);
    o := AwaitCallback(config, base, fs, provider, listener, codec, secrets, now);
    AppendTwice(old(provider.calls), [Discovery], callback.calls);
  }

  /** Lines 75-171: the redirect server's accept loop. */
  method AwaitCallback(config: ConfigFile, base: ConfigBasePath, fs: FileSystem, provider: Provider,
                       listener: Listener, codec: UrlCodec, secrets: Secrets, now: nat)
    returns (o: Outcome<(), LibError>)
    modifies config, fs, provider, listener
    ensures var e := CallbackSpec(old(config.Record()), old(fs.state), base, provider.oracle, codec,
                                  listener.bindOk, listener.incoming, secrets, now);
            && o == e.outcome && config.Record() == e.record && fs.state == e.fs
            && provider.calls == old(provider.calls) + e.calls
            && listener.replies == old(listener.replies) + e.replies
  {
    if !listener.bindOk {
      return Aborted(BindFailed);
    }
    var i := 0;
    while i < |listener.incoming|
      invariant 0 <= i <= |listener.incoming|
      invariant forall j :: 0 <= j < i ==> listener.incoming[j].AcceptFailed?
      invariant config.Record() == old(config.Record()) && fs.state == old(fs.state)
      invariant provider.calls == old(provider.calls)
      invariant listener.replies == old(listener.replies)
    {
      if listener.incoming[i].Accepted? {
        assert FirstAccepted(listener.incoming) == Some(i);
        o := ServeConnection(config, base, fs, provider, listener, codec, secrets, now, i);
        return;
      }
      i := i + 1;
    }
    return Returned(Err(NoResponse));
  }
}

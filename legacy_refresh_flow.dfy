/** `refresh_google_login` of the older binary: the library flow's checks
    with `SimpleError` messages, except that a failed discovery ends the
    process. */
module LegacyRefreshFlow {
  import opened Wrappers
  import opened Errors
  import opened Records
  import opened Paths
  import opened FileSystem
  import opened ConfigStore
  import opened LegacyConfigStore
  import opened OpenId
  import opened RefreshFlow

  const RefreshFailed: string := "Could not refresh token"
  const NoIdTokenAvailable: string := "No id token available"
  const ClaimsUnreadable: string := "Could not read id token claims"

  function NoRefreshTokenMessage(name: string): string {
    "There is no refresh token available for configuration " + name
  }

  /** Everything an older refresh does. */
  datatype LegacyRefreshEffect = LegacyRefreshEffect(outcome: Outcome<(), SimpleError>, record: ConfigRecord,
                                                     fs: FsState, calls: seq<Call>)

  /** `refresh_google_login`, with `now` the clock reading after the
      refresh-token check. */
  function LegacyRefreshSpec(c: ConfigRecord, s: FsState, home: Option<Path>, p: ProviderOracle, now: nat): (e: LegacyRefreshEffect)
    ensures e.calls != [] && e.calls[0] == Discovery
  {
    if !p.discovers then LegacyRefreshEffect(Exits(DiscoveryFailed), c, s, [Discovery])
    else
      match c.refreshToken
      case None => LegacyRefreshEffect(Returned(Err(SimpleError(NoRefreshTokenMessage(c.name)))), c, s, [Discovery])
      case Some(refreshToken) =>
        var request := RefreshRequest(refreshToken, c.scopes);
        var calls := [Discovery, RefreshExchange(request)];
        match p.refreshGrant(request)
        case None => LegacyRefreshEffect(Returned(Err(SimpleError(RefreshFailed))), c, s, calls)
        case Some(resp) =>
          var withAccess := c.(accessToken := Some(Token(resp.accessToken, AccessExpiry(now, resp.expiresIn))));
          match resp.idToken
          case None => LegacyRefreshEffect(Returned(Err(SimpleError(NoIdTokenAvailable))), withAccess, s, calls)
          case Some(idToken) =>
            match p.claimsExpiry(idToken, None)
            case None => LegacyRefreshEffect(Returned(Err(SimpleError(ClaimsUnreadable))), withAccess, s, calls)
            case Some(idExpiry) =>
              var refreshed := withAccess.(idToken := Some(Token(idToken, idExpiry)));
              var (r, s') := LegacySaveOutcome(s, home, refreshed);
              LegacyRefreshEffect(Returned(r), refreshed, s', calls)
  }

  /** The library's error that corresponds to each outcome of the older flow. */
  function LibraryCounterpart(o: Outcome<(), SimpleError>, c: ConfigRecord): Option<LibError> {
    match o
    case Exits(_) => Some(OpenIdError(DiscoveryFailed))
    case Aborted(_) => None
    case Returned(Ok(_)) => None
    case Returned(Err(e)) =>
      if e.message == NoRefreshTokenMessage(c.name) then Some(NoRefreshTokenForConfig(c.name))
      else if e.message == RefreshFailed then Some(CouldNotRefreshToken)
      else if e.message == NoIdTokenAvailable then Some(NoIdToken)
      else if e.message == ClaimsUnreadable then Some(CouldNotReadClaims)
      else None
  }

  /** With a home directory, the older refresh sends the same requests,
      leaves the same profile and filesystem as the library's refresh over
      `.googauth` and succeeds exactly when it does; it exits through
      `handle_error` exactly where the library reports a failed discovery,
      and it never panics. */
  lemma LegacyRefreshMatchesLibrary(c: ConfigRecord, s: FsState, home: Path, p: ProviderOracle, now: nat)
    ensures var old_ := LegacyRefreshSpec(c, s, Some(home), p, now);
            var lib := RefreshSpec(c, s, HomeBase(home), p, now);
            && old_.record == lib.record && old_.fs == lib.fs && old_.calls == lib.calls
            && (old_.outcome.Returned? && old_.outcome.result.Ok? <==> lib.result.Ok?)
            && (old_.outcome.Exits? <==> lib.result == Err(OpenIdError(DiscoveryFailed)))
            && !old_.outcome.Aborted?
            && (lib.result.Err? && !lib.result.error.IoError? && !lib.result.error.JsonError? ==>
                  LibraryCounterpart(old_.outcome, c) == Some(lib.result.error))
  {
    var base := HomeBase(home);
    if p.discovers && c.refreshToken.Some? {
      var request := RefreshRequest(c.refreshToken.value, c.scopes);
      var calls := [Discovery, RefreshExchange(request)];
      assert |NoRefreshTokenMessage(c.name)| > |ClaimsUnreadable|;
      if p.refreshGrant(request).Some? {
        var resp := p.refreshGrant(request).value;
        var withAccess := c.(accessToken := Some(Token(resp.accessToken, AccessExpiry(now, resp.expiresIn))));
        if resp.idToken.None? {
          assert LegacyRefreshSpec(c, s, Some(home), p, now)
                 == LegacyRefreshEffect(Returned(Err(SimpleError(NoIdTokenAvailable))), withAccess, s, calls);
          assert RefreshSpec(c, s, base, p, now) == RefreshEffect(Err(NoIdToken), withAccess, s, calls);
        } else if p.claimsExpiry(resp.idToken.value, None).None? {
          assert LegacyRefreshSpec(c, s, Some(home), p, now)
                 == LegacyRefreshEffect(Returned(Err(SimpleError(ClaimsUnreadable))), withAccess, s, calls);
          assert RefreshSpec(c, s, base, p, now) == RefreshEffect(Err(CouldNotReadClaims), withAccess, s, calls);
        } else {
          var idToken := resp.idToken.value;
          var refreshed := withAccess.(idToken := Some(Token(idToken, p.claimsExpiry(idToken, None).value)));
          var saved := SaveOutcome(s, base, refreshed);
          assert LegacyRefreshSpec(c, s, Some(home), p, now)
                 == LegacyRefreshEffect(Returned(AsSimple(saved).0), refreshed, saved.1, calls);
          assert RefreshSpec(c, s, base, p, now) == RefreshEffect(saved.0, refreshed, saved.1, calls);
        }
      }
    }
  }

  /** Discovery comes first: a failed discovery exits even for a profile
      without a refresh token, and without a refresh token no grant is
      requested and nothing changes. */
  lemma LegacyRefreshCheckOrder(c: ConfigRecord, s: FsState, home: Option<Path>, p: ProviderOracle, now: nat)
    ensures LegacyRefreshSpec(c, s, home, p, now).outcome.Exits? <==> !p.discovers
    ensures !p.discovers ==> LegacyRefreshSpec(c, s, home, p, now) == LegacyRefreshEffect(Exits(DiscoveryFailed), c, s, [Discovery])
    ensures p.discovers && c.refreshToken.None? ==>
              LegacyRefreshSpec(c, s, home, p, now)
              == LegacyRefreshEffect(Returned(Err(SimpleError(NoRefreshTokenMessage(c.name)))), c, s, [Discovery])
  {
  }

  /** A successful older refresh replaces only the access and ID tokens, keeps
      the refresh token and scopes, and stores the profile so that it reads
      back. */
  lemma LegacyRefreshSuccess(c: ConfigRecord, s: FsState, home: Option<Path>, p: ProviderOracle, now: nat)
    requires LegacyRefreshSpec(c, s, home, p, now).outcome == Returned(Ok(()))
    requires PlainName(c.name)
    requires home.Some? ==> var k := Canon(GoogauthFile(home, c.name).value);
                            (Open, k) !in s.faults && (Read, k) !in s.faults
    ensures home.Some? && c.refreshToken.Some?
    ensures var e := LegacyRefreshSpec(c, s, home, p, now);
            var resp := p.refreshGrant(RefreshRequest(c.refreshToken.value, c.scopes)).value;
            && SameButTokens(e.record, c)
            && e.record.accessToken == Some(Token(resp.accessToken, AccessExpiry(now, resp.expiresIn)))
            && e.record.idToken.Some? && e.record.idToken.value.secret == resp.idToken.value
            && LegacyReadConfig(e.fs, home, c.name) == Some(e.record)
  {
    var e := LegacyRefreshSpec(c, s, home, p, now);
    var request := RefreshRequest(c.refreshToken.value, c.scopes);
    var resp := p.refreshGrant(request).value;
    var withAccess := c.(accessToken := Some(Token(resp.accessToken, AccessExpiry(now, resp.expiresIn))));
    var idToken := resp.idToken.value;
    var refreshed := withAccess.(idToken := Some(Token(idToken, p.claimsExpiry(idToken, None).value)));
    assert e == LegacyRefreshEffect(Returned(LegacySaveOutcome(s, home, refreshed).0), refreshed,
                                    LegacySaveOutcome(s, home, refreshed).1, [Discovery, RefreshExchange(request)]);
    LegacySaveThenRead(s, home, refreshed);
  }

  /** `refresh_google_login` of the older binary. */
  method LegacyRefreshGoogleLogin(config: ConfigFile, home: Option<Path>, fs: FileSystem, provider: Provider, now: nat)
    returns (o: Outcome<(), SimpleError>)
    modifies config, fs, provider
    ensures var e := LegacyRefreshSpec(old(config.Record()), old(fs.state), home, provider.oracle, now);
            && o == e.outcome && config.Record() == e.record && fs.state == e.fs
            && provider.calls == old(provider.calls) + e.calls
  {
    var discovered := provider.Discover();
    if !discovered {
      return Exits(DiscoveryFailed);
    }
    if config.refreshToken.None? {
      return Returned(Err(SimpleError(NoRefreshTokenMessage(config.name))));
    }
    var refreshToken := config.refreshToken.value;
    var request := RefreshRequest(refreshToken, []);
    for k := 0 to |config.scopes|
      invariant request == RefreshRequest(refreshToken, config.scopes[..k])
    {
      assert config.scopes[..k + 1] == config.scopes[..k] + [config.scopes[k]];
      request := request.AddScope(config.scopes[k]);
    }
    assert config.scopes[..|config.scopes|] == config.scopes;
    var response := provider.ExchangeRefresh(request);
    if response.None? {
      return Returned(Err(SimpleError(RefreshFailed)));
    }
    var tokens := response.value;
    config.accessToken := Some(Token(tokens.accessToken, AccessExpiry(now, tokens.expiresIn)));
    if tokens.idToken.None? {
      return Returned(Err(SimpleError(NoIdTokenAvailable)));
    }
    var idToken := tokens.idToken.value;
    var claims := provider.oracle.claimsExpiry(idToken, None);
    if claims.None? {
      return Returned(Err(SimpleError(ClaimsUnreadable)));
    }
    config.idToken := Some(Token(idToken, claims.value));
    var saved := LegacySaveConfig(config, home, fs);
    return Returned(saved);
  }
}

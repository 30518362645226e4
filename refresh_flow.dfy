/** `refresh_google_login` of the library crate: discovery, the refresh-token
    grant with the profile's scopes, then the in-place update of the access
    and ID tokens and the save. */
module RefreshFlow {
  import opened Wrappers
  import opened Errors
  import opened Records
  import opened FileSystem
  import opened ConfigStore
  import opened OpenId

  /** Everything a refresh does: its result, the profile in memory
      afterwards, the filesystem, and the requests sent to the provider. */
  datatype RefreshEffect = RefreshEffect(result: Result<(), LibError>, record: ConfigRecord, fs: FsState, calls: seq<Call>)

  /** `refresh_google_login`, with `now` the clock reading after discovery. */
  function RefreshSpec(c: ConfigRecord, s: FsState, base: ConfigBasePath, p: ProviderOracle, now: nat): RefreshEffect {
    if !p.discovers then RefreshEffect(Err(OpenIdError(DiscoveryFailed)), c, s, [Discovery])
    else
      match c.refreshToken
      case None => RefreshEffect(Err(NoRefreshTokenForConfig(c.name)), c, s, [Discovery])
      case Some(refreshToken) =>
        var request := RefreshRequest(refreshToken, c.scopes);
        var calls := [Discovery, RefreshExchange(request)];
        match p.refreshGrant(request)
        case None => RefreshEffect(Err(CouldNotRefreshToken), c, s, calls)
        case Some(resp) =>
          var withAccess := c.(accessToken := Some(Token(resp.accessToken, AccessExpiry(now, resp.expiresIn))));
          match resp.idToken
          case None => RefreshEffect(Err(NoIdToken), withAccess, s, calls)
          case Some(idToken) =>
            match p.claimsExpiry(idToken, None)
            case None => RefreshEffect(Err(CouldNotReadClaims), withAccess, s, calls)
            case Some(idExpiry) =>
              var refreshed := withAccess.(idToken := Some(Token(idToken, idExpiry)));
              var (r, s') := SaveOutcome(s, base, refreshed);
              RefreshEffect(r, refreshed, s', calls)
  }

  /** The two profiles agree on everything but the access and ID tokens. */
  predicate SameButTokens(a: ConfigRecord, b: ConfigRecord) {
    && a.version == b.version && a.name == b.name && a.clientId == b.clientId
    && a.clientSecret == b.clientSecret && a.scopes == b.scopes && a.redirectUrl == b.redirectUrl
    && a.refreshToken == b.refreshToken
  }

  /** A refresh never touches the version, name, client, scopes, redirect URL
      or refresh token; it writes the filesystem only through the final save,
      whose result it returns. */
  lemma RefreshKeepsIdentity(c: ConfigRecord, s: FsState, base: ConfigBasePath, p: ProviderOracle, now: nat)
    ensures var e := RefreshSpec(c, s, base, p, now);
            && SameButTokens(e.record, c)
            && (e.fs == s || (e.result == SaveOutcome(s, base, e.record).0 && e.fs == SaveOutcome(s, base, e.record).1))
  {
    if p.discovers && c.refreshToken.Some? {
      var request := RefreshRequest(c.refreshToken.value, c.scopes);
      if p.refreshGrant(request).Some? {
        var resp := p.refreshGrant(request).value;
        var withAccess := c.(accessToken := Some(Token(resp.accessToken, AccessExpiry(now, resp.expiresIn))));
        if resp.idToken.Some? && p.claimsExpiry(resp.idToken.value, None).Some? {
          var refreshed := withAccess.(idToken := Some(Token(resp.idToken.value, p.claimsExpiry(resp.idToken.value, None).value)));
          assert RefreshSpec(c, s, base, p, now).record == refreshed;
        }
      }
    }
  }

  /** Discovery comes first: its failure is reported even for a profile
      without a refresh token. Without a refresh token no grant is requested
      and nothing changes. */
  lemma RefreshCheckOrder(c: ConfigRecord, s: FsState, base: ConfigBasePath, p: ProviderOracle, now: nat)
    ensures !p.discovers ==>
              RefreshSpec(c, s, base, p, now) == RefreshEffect(Err(OpenIdError(DiscoveryFailed)), c, s, [Discovery])
    ensures p.discovers && c.refreshToken.None? ==>
              RefreshSpec(c, s, base, p, now) == RefreshEffect(Err(NoRefreshTokenForConfig(c.name)), c, s, [Discovery])
  {
  }

  /** The one grant requested carries the stored refresh token and every
      scope of the profile, in order. */
  lemma RefreshRequestCarriesScopes(c: ConfigRecord, s: FsState, base: ConfigBasePath, p: ProviderOracle, now: nat, k: nat)
    requires k < |RefreshSpec(c, s, base, p, now).calls| && RefreshSpec(c, s, base, p, now).calls[k].RefreshExchange?
    ensures c.refreshToken.Some?
    ensures RefreshSpec(c, s, base, p, now).calls == [Discovery, RefreshExchange(RefreshRequest(c.refreshToken.value, c.scopes))]
  {
  }

  /** A failed grant changes nothing; a grant without a usable ID token
      leaves the new access token in memory and saves nothing. */
  lemma RefreshFailures(c: ConfigRecord, s: FsState, base: ConfigBasePath, p: ProviderOracle, now: nat)
    ensures var e := RefreshSpec(c, s, base, p, now);
            && (e.result == Err(CouldNotRefreshToken) ==> e.record == c && e.fs == s)
            && (e.result in {Err(NoIdToken), Err(CouldNotReadClaims)} ==>
                  && e.fs == s && e.record.idToken == c.idToken
                  && var resp := p.refreshGrant(RefreshRequest(c.refreshToken.value, c.scopes)).value;
                     e.record == c.(accessToken := Some(Token(resp.accessToken, AccessExpiry(now, resp.expiresIn)))))
  {
  }

  /** A successful refresh stores the new access token, expiring at
      `now + expires_in` (or 0), and the ID token with the expiry of its
      claims checked without a nonce; the refresh token is kept even when the
      response carries a new one. */
  lemma RefreshSuccess(c: ConfigRecord, s: FsState, base: ConfigBasePath, p: ProviderOracle, now: nat)
    requires RefreshSpec(c, s, base, p, now).result.Ok?
    ensures c.refreshToken.Some? && p.refreshGrant(RefreshRequest(c.refreshToken.value, c.scopes)).Some?
    ensures var resp := p.refreshGrant(RefreshRequest(c.refreshToken.value, c.scopes)).value;
            && resp.idToken.Some? && p.claimsExpiry(resp.idToken.value, None).Some?
            && var e := RefreshSpec(c, s, base, p, now);
               && e.record == c.(accessToken := Some(Token(resp.accessToken, AccessExpiry(now, resp.expiresIn))),
                                 idToken := Some(Token(resp.idToken.value, p.claimsExpiry(resp.idToken.value, None).value)))
               && e.fs == SaveOutcome(s, base, e.record).1
  {
  }

  /** `refresh_google_login`. */
  method RefreshGoogleLogin(config: ConfigFile, base: ConfigBasePath, fs: FileSystem, provider: Provider, now: nat)
    returns (r: Result<(), LibError>)
    modifies config, fs, provider
    ensures var e := RefreshSpec(old(config.Record()), old(fs.state), base, provider.oracle, now);
            && r == e.result && config.Record() == e.record && fs.state == e.fs
            && provider.calls == old(provider.calls) + e.calls
  {
    var discovered := provider.Discover();
    if !discovered {
      return Err(OpenIdError(DiscoveryFailed));
    }
    if config.refreshToken.None? {
      return Err(NoRefreshTokenForConfig(config.name));
    }
    var refreshToken := config.refreshToken.value;
    var request := RefreshRequest(refreshToken, []);
    for k := 0 to |config.scopes|
      invariant request == RefreshRequest(refreshToken, config.scopes[..k])
    {
      assert config.scopes[..k + 1] == config.scopes[..k] + [config.scopes[k]];
      request := request.AddScope(config.scopes[k]);
    }
    assert config.scopes[..|config.scopes|] == config.scopes;
    var response := provider.ExchangeRefresh(request);
    if response.None? {
      return Err(CouldNotRefreshToken);
    }
    var tokens := response.value;
    config.accessToken := Some(Token(tokens.accessToken, AccessExpiry(now, tokens.expiresIn)));
    if tokens.idToken.None? {
      return Err(NoIdToken);
    }
    var idToken := tokens.idToken.value;
    var claims := provider.oracle.claimsExpiry(idToken, None);
    if claims.None? {
      return Err(CouldNotReadClaims);
    }
    config.idToken := Some(Token(idToken, claims.value));
    r := SaveConfig(config, base, fs);
  }
}

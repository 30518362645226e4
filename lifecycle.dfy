/** The library's entry points for a cached profile: `check_token`, which
    refreshes an expired token, and `get_access_token_from_config`. */
module Lifecycle {
  import opened Wrappers
  import opened Errors
  import opened Records
  import opened FileSystem
  import opened ConfigStore
  import opened OpenId
  import opened RefreshFlow

  /** The expiry `check_token` compares: that of the token, or 0 without one. */
  function Expiry(token: Option<Token>): nat {
    match token
    case Some(t) => t.exp
    case None => 0
  }

  /** A token is refreshed when its expiry is strictly before `now`. */
  predicate NeedsRefresh(token: Option<Token>, now: nat) {
    Expiry(token) < now
  }

  /** `check_token(token, config)`, with `now` its clock reading and
      `refreshNow` the refresh flow's own. */
  function CheckSpec(token: Option<Token>, c: ConfigRecord, s: FsState, base: ConfigBasePath, p: ProviderOracle,
                     now: nat, refreshNow: nat): RefreshEffect
  {
    if NeedsRefresh(token, now) then RefreshSpec(c, s, base, p, refreshNow)
    else RefreshEffect(Ok(()), c, s, [])
  }

  /** A refresh runs exactly when the token passed in has expired, whichever
      profile it is checked against: an absent token counts as expiry 0, and
      a token expiring at `now` is kept. Without a refresh nothing changes;
      with one, its effect and errors are passed on unchanged. */
  lemma RefreshExactlyWhenExpired(token: Option<Token>, c: ConfigRecord, s: FsState, base: ConfigBasePath,
                                  p: ProviderOracle, now: nat, refreshNow: nat)
    ensures CheckSpec(token, c, s, base, p, now, refreshNow).calls != [] <==> Expiry(token) < now
    ensures token.None? ==> (NeedsRefresh(token, now) <==> now > 0)
    ensures token.Some? && token.value.exp == now ==> !NeedsRefresh(token, now)
    ensures !NeedsRefresh(token, now) ==> CheckSpec(token, c, s, base, p, now, refreshNow) == RefreshEffect(Ok(()), c, s, [])
    ensures NeedsRefresh(token, now) ==> CheckSpec(token, c, s, base, p, now, refreshNow) == RefreshSpec(c, s, base, p, refreshNow)
  {
    if NeedsRefresh(token, now) {
      assert RefreshSpec(c, s, base, p, refreshNow).calls[0] == Discovery;
    }
  }

  /** The check looks only at the expiry of the token it is handed, not at
      which of the profile's fields that token came from. */
  lemma CheckDependsOnlyOnExpiry(t1: Option<Token>, t2: Option<Token>, c: ConfigRecord, s: FsState,
                                 base: ConfigBasePath, p: ProviderOracle, now: nat, refreshNow: nat)
    requires Expiry(t1) == Expiry(t2)
    ensures CheckSpec(t1, c, s, base, p, now, refreshNow) == CheckSpec(t2, c, s, base, p, now, refreshNow)
  {
  }

  /** `check_token`. */
  method CheckToken(token: Option<Token>, config: ConfigFile, base: ConfigBasePath, fs: FileSystem,
                    provider: Provider, now: nat, refreshNow: nat) returns (r: Result<(), LibError>)
    modifies config, fs, provider
    ensures var e := CheckSpec(token, old(config.Record()), old(fs.state), base, provider.oracle, now, refreshNow);
            && r == e.result && config.Record() == e.record && fs.state == e.fs
            && provider.calls == old(provider.calls) + e.calls
  {
    var tokenExpiration := match token case Some(t) => t.exp case None => 0;
    if tokenExpiration < now {
      r := RefreshGoogleLogin(config, base, fs, provider, refreshNow);
      if r.Err? {
        return;
      }
    }
    return Ok(());
  }

  /** A check fails only with an error of the refresh flow: discovery, a
      missing refresh token, the grant, the ID token or its claims, or the
      save. */
  lemma CheckErrors(token: Option<Token>, c: ConfigRecord, s: FsState, base: ConfigBasePath,
                    p: ProviderOracle, now: nat, refreshNow: nat)
    ensures var r := CheckSpec(token, c, s, base, p, now, refreshNow).result;
            r.Err? ==> || r.error == OpenIdError(DiscoveryFailed) || r.error == NoRefreshTokenForConfig(c.name)
                       || r.error == CouldNotRefreshToken || r.error == NoIdToken || r.error == CouldNotReadClaims
                       || r.error.IoError? || r.error.JsonError?
  {
    if NeedsRefresh(token, now) {
      RefreshKeepsIdentity(c, s, base, p, refreshNow);
    }
  }

  /** What `get_access_token_from_config` returns, and what it leaves in the
      filesystem and sent to the provider. */
  datatype AccessLookup = AccessLookup(result: Result<Token, LibError>, fs: FsState, calls: seq<Call>)

  function GetAccessSpec(name: string, base: ConfigBasePath, s: FsState, p: ProviderOracle,
                         now: nat, refreshNow: nat): AccessLookup
  {
    match ReadConfig(s, name, base)
    case Err(e) => AccessLookup(Err(e), s, [])
    case Ok(c) => AccessAfterCheck(CheckSpec(c.accessToken, c, s, base, p, now, refreshNow))
  }

  /** The second half of `get_access_token_from_config`: a failed check is
      passed on; otherwise the profile's access token is returned. */
  function AccessAfterCheck(e: RefreshEffect): AccessLookup {
    if e.result.Err? then AccessLookup(Err(e.result.error), e.fs, e.calls)
    else
      match e.record.accessToken
      case Some(t) => AccessLookup(Ok(t), e.fs, e.calls)
      case None => AccessLookup(Err(CouldNotReadConfigCorrupt(e.record.name)), e.fs, e.calls)
  }

  /** A profile that does not read is reported as `read_config` reported it,
      and nothing else happens. */
  lemma LookupPropagatesReadErrors(name: string, base: ConfigBasePath, s: FsState, p: ProviderOracle, now: nat, refreshNow: nat)
    requires ReadConfig(s, name, base).Err?
    ensures GetAccessSpec(name, base, s, p, now, refreshNow) == AccessLookup(Err(ReadConfig(s, name, base).error), s, [])
  {
  }

  /** The corrupt-profile error needs a profile without an access token and
      a clock at 0: at any later time the absent token forces a refresh, and
      a refresh that succeeds always stores an access token. */
  lemma CorruptOnlyAtTimeZero(name: string, base: ConfigBasePath, s: FsState, p: ProviderOracle, now: nat, refreshNow: nat)
    requires GetAccessSpec(name, base, s, p, now, refreshNow).result.Err?
    requires GetAccessSpec(name, base, s, p, now, refreshNow).result.error.CouldNotReadConfigCorrupt?
    ensures now == 0
    ensures ReadConfig(s, name, base).Ok? && ReadConfig(s, name, base).value.accessToken.None?
  {
    var read := ReadConfig(s, name, base);
    if read.Err? {
      assert false;
    }
    var c := read.value;
    var e := CheckSpec(c.accessToken, c, s, base, p, now, refreshNow);
    assert GetAccessSpec(name, base, s, p, now, refreshNow) == AccessAfterCheck(e);
    CheckErrors(c.accessToken, c, s, base, p, now, refreshNow);
    AfterCheckCorrupt(e);
    CheckedTokenPresent(c.accessToken, c, s, base, p, now, refreshNow);
  }

  /** Only a successful check that leaves no access token is reported as a
      corrupt profile. */
  lemma AfterCheckCorrupt(e: RefreshEffect)
    requires e.result.Err? ==> !e.result.error.CouldNotReadConfigCorrupt?
    requires AccessAfterCheck(e).result.Err? && AccessAfterCheck(e).result.error.CouldNotReadConfigCorrupt?
    ensures e.result.Ok? && e.record.accessToken.None?
  {
  }

  /** A check that succeeds leaves an access token in the profile unless it
      kept a profile that had none. */
  lemma CheckedTokenPresent(token: Option<Token>, c: ConfigRecord, s: FsState, base: ConfigBasePath,
                            p: ProviderOracle, now: nat, refreshNow: nat)
    requires CheckSpec(token, c, s, base, p, now, refreshNow).result.Ok?
    ensures NeedsRefresh(token, now) ==> CheckSpec(token, c, s, base, p, now, refreshNow).record.accessToken.Some?
    ensures !NeedsRefresh(token, now) ==> CheckSpec(token, c, s, base, p, now, refreshNow).record == c
  {
    if NeedsRefresh(token, now) {
      RefreshSuccess(c, s, base, p, refreshNow);
    }
  }

  /** After a refresh, the token returned is the one the refresh stored, and
      it is what the profile's file now holds. */
  lemma LookupReturnsSavedToken(name: string, base: ConfigBasePath, s: FsState, p: ProviderOracle, now: nat, refreshNow: nat)
    requires ReadConfig(s, name, base).Ok?
    requires NeedsRefresh(ReadConfig(s, name, base).value.accessToken, now)
    requires GetAccessSpec(name, base, s, p, now, refreshNow).result.Ok?
    ensures var c := ReadConfig(s, name, base).value;
            var e := RefreshSpec(c, s, base, p, refreshNow);
            && e.record.accessToken == Some(GetAccessSpec(name, base, s, p, now, refreshNow).result.value)
            && GetAccessSpec(name, base, s, p, now, refreshNow).fs == e.fs
            && ((Open, ProfileKey(c.name, base)) !in s.faults && (Read, ProfileKey(c.name, base)) !in s.faults ==>
                  ReadConfig(e.fs, c.name, base) == Ok(e.record))
  {
    var c := ReadConfig(s, name, base).value;
    RefreshSuccess(c, s, base, p, refreshNow);
    var e := RefreshSpec(c, s, base, p, refreshNow);
    if (Open, ProfileKey(c.name, base)) !in s.faults && (Read, ProfileKey(c.name, base)) !in s.faults {
      SaveThenRead(s, base, e.record);
    }
  }

  /** A token that expired at 100, checked at 200, is refreshed; with a
      one-hour lifetime granted at 200 the new token expires at 3800. */
  lemma ExpiredTokenScenario(name: string, base: ConfigBasePath, s: FsState, p: ProviderOracle, resp: TokenResponse)
    requires ReadConfig(s, name, base).Ok?
    requires ReadConfig(s, name, base).value.accessToken.Some?
    requires ReadConfig(s, name, base).value.accessToken.value.exp == 100
    requires resp.expiresIn == Some(3600)
    requires var c := ReadConfig(s, name, base).value;
             c.refreshToken.Some? && p.refreshGrant(RefreshRequest(c.refreshToken.value, c.scopes)) == Some(resp)
    requires GetAccessSpec(name, base, s, p, 200, 200).result.Ok?
    ensures GetAccessSpec(name, base, s, p, 200, 200).result.value == Token(resp.accessToken, 3800)
  {
    var c := ReadConfig(s, name, base).value;
    RefreshSuccess(c, s, base, p, 200);
  }

  /** `get_access_token_from_config`. */
  method GetAccessTokenFromConfig(name: string, base: ConfigBasePath, fs: FileSystem, provider: Provider,
                                  now: nat, refreshNow: nat) returns (r: Result<Token, LibError>)
    modifies fs, provider
    ensures var e := GetAccessSpec(name, base, old(fs.state), provider.oracle, now, refreshNow);
            && r == e.result && fs.state == e.fs && provider.calls == old(provider.calls) + e.calls
  {
    var read := ReadConfig(fs.state, name, base);
    if read.Err? {
      return Err(read.error);
    }
    var config := new ConfigFile.FromRecord(read.value);
    var checked := CheckToken(config.accessToken, config, base, fs, provider, now, refreshNow);
    if checked.Err? {
      return Err(checked.error);
    }
    match config.accessToken
    case Some(t) => return Ok(t);
    case None => return Err(CouldNotReadConfigCorrupt(config.name));
  }
}

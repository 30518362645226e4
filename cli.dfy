/** The `login`, `accesstoken` and `idtoken` commands of the binary built on
    the library: preparing the profile from the command-line flags, then
    logging in, or reading a profile's token after checking its expiry. */
module Cli {
  import opened Wrappers
  import opened Errors
  import opened Records
  import opened FileSystem
  import opened ConfigStore
  import opened OpenId
  import opened Callback
  import opened RefreshFlow
  import opened LoginFlow
  import opened Lifecycle

  /** The default of `--redirect`. */
  const DefaultRedirect: string := "http://localhost:8080/"
  /** The message of the validator every `--scopes` value goes through. */
  const ScopeRequired: string := "You must specify at least one scope"

  /** The `login` flags as given: `--id`/`CLIENT_ID`, `--secret`/`CLIENT_SECRET`,
      `--scopes`/`SCOPES` already split at commas, `--redirect`/`REDIRECT`. */
  datatype LoginFlags = LoginFlags(clientId: Option<string>, secret: Option<string>,
                                   scopes: Option<seq<string>>, redirect: Option<string>)

  /** The index of the first empty scope, or the number of scopes. */
  function FirstEmpty(scopes: seq<string>): (i: nat)
    ensures i <= |scopes|
    ensures forall j :: 0 <= j < i ==> scopes[j] != ""
    ensures i < |scopes| ==> scopes[i] == ""
  {
    if scopes == [] || scopes[0] == "" then 0 else 1 + FirstEmpty(scopes[1..])
  }

  /** What the argument parser hands the `login` arm: an empty scope value is
      rejected, and a missing `--redirect` takes its default. */
  function ResolveFlags(given: LoginFlags): (r: Result<LoginFlags, string>)
    ensures r.Err? <==> given.scopes.Some? && exists j :: 0 <= j < |given.scopes.value| && given.scopes.value[j] == ""
    ensures r.Err? ==> r.error == ScopeRequired
    ensures r.Ok? ==> && r.value.clientId == given.clientId && r.value.secret == given.secret
                      && r.value.scopes == given.scopes && r.value.redirect.Some?
                      && (given.redirect.Some? ==> r.value.redirect == given.redirect)
                      && (given.redirect.None? ==> r.value.redirect == Some(DefaultRedirect))
  {
    if given.scopes.Some? && FirstEmpty(given.scopes.value) < |given.scopes.value| then Err(ScopeRequired)
    else Ok(given.(redirect := Some(given.redirect.GetOr(DefaultRedirect))))
  }

  /** The four flags a new profile needs. */
  datatype Required = ClientIdFlag | SecretFlag | ScopesFlag | RedirectFlag

  function MissingMessage(flag: Required, name: string): string {
    match flag
    case ClientIdFlag => "You must specify a client id for the configuration " + name
    case SecretFlag => "You must specify a client secret for the configuration " + name
    case ScopesFlag => "You must specify at least one scope for the configuration " + name
    case RedirectFlag => "You must specify a redirect URL for the configuration " + name
  }

  /** Lines 104-150: the new profile from the flags, each required in turn. */
  function NewProfile(name: string, flags: LoginFlags): (r: Result<ConfigRecord, string>)
    ensures r.Ok? <==> flags.clientId.Some? && flags.secret.Some? && flags.scopes.Some? && flags.redirect.Some?
  {
    match flags.clientId
    case None => Err(MissingMessage(ClientIdFlag, name))
    case Some(clientId) =>
      match flags.secret
      case None => Err(MissingMessage(SecretFlag, name))
      case Some(clientSecret) =>
        match flags.scopes
        case None => Err(MissingMessage(ScopesFlag, name))
        case Some(scopes) =>
          match flags.redirect
          case None => Err(MissingMessage(RedirectFlag, name))
          case Some(redirectUrl) =>
            Ok(ConfigRecord(CurrentVersion, name, clientId, clientSecret, scopes, redirectUrl, None, None, None))
  }

  /** The flags are checked in the order client id, secret, scopes, redirect;
      the first missing one is reported with the profile's name at the end of
      the message; with all four the profile is `ConfigFile::new`'s. */
  lemma NewProfileCheckOrder(name: string, flags: LoginFlags)
    ensures flags.clientId.None? ==>
              NewProfile(name, flags) == Err("You must specify a client id for the configuration " + name)
    ensures flags.clientId.Some? && flags.secret.None? ==>
              NewProfile(name, flags) == Err("You must specify a client secret for the configuration " + name)
    ensures flags.clientId.Some? && flags.secret.Some? && flags.scopes.None? ==>
              NewProfile(name, flags) == Err("You must specify at least one scope for the configuration " + name)
    ensures flags.clientId.Some? && flags.secret.Some? && flags.scopes.Some? && flags.redirect.None? ==>
              NewProfile(name, flags) == Err("You must specify a redirect URL for the configuration " + name)
    ensures NewProfile(name, flags).Err? ==>
              var m := NewProfile(name, flags).error;
              |m| >= |name| && m[|m| - |name|..] == name
    ensures NewProfile(name, flags).Ok? ==>
              NewProfile(name, flags).value
              == ConfigRecord(CurrentVersion, name, flags.clientId.value, flags.secret.value, flags.scopes.value,
                              flags.redirect.value, None, None, None)
  {
    if NewProfile(name, flags).Err? {
      var m := NewProfile(name, flags).error;
      var flag := if flags.clientId.None? then ClientIdFlag else if flags.secret.None? then SecretFlag
                  else if flags.scopes.None? then ScopesFlag else RedirectFlag;
      assert m == MissingMessage(flag, name);
      var prefix := m[..|m| - |name|];
      assert m == prefix + name;
    }
  }

  /** After the argument parser, a new profile never lacks its redirect URL. */
  lemma ResolvedFlagsHaveRedirect(name: string, given: LoginFlags)
    requires ResolveFlags(given).Ok?
    ensures NewProfile(name, ResolveFlags(given).value) != Err(MissingMessage(RedirectFlag, name))
  {
    var flags := ResolveFlags(given).value;
    var redirect := MissingMessage(RedirectFlag, name);
    if flags.clientId.None? {
      assert |MissingMessage(ClientIdFlag, name)| < |redirect|;
    } else if flags.secret.None? {
      assert |MissingMessage(SecretFlag, name)| > |redirect|;
    } else if flags.scopes.None? {
      assert |MissingMessage(ScopesFlag, name)| > |redirect|;
    } else {
      assert NewProfile(name, flags).Ok?;
    }
  }

  /** Lines 169-180: each given flag overwrites its own field. */
  function Merge(c: ConfigRecord, flags: LoginFlags): ConfigRecord {
    c.(clientId := flags.clientId.GetOr(c.clientId),
       clientSecret := flags.secret.GetOr(c.clientSecret),
       scopes := flags.scopes.GetOr(c.scopes),
       redirectUrl := flags.redirect.GetOr(c.redirectUrl))
  }

  /** The merge overwrites exactly the fields whose flag was given, and never
      the version, the name or any token. */
  lemma MergeIsFieldWise(c: ConfigRecord, flags: LoginFlags)
    ensures var m := Merge(c, flags);
            && (flags.clientId.Some? ==> m.clientId == flags.clientId.value)
            && (flags.clientId.None? ==> m.clientId == c.clientId)
            && (flags.secret.Some? ==> m.clientSecret == flags.secret.value)
            && (flags.secret.None? ==> m.clientSecret == c.clientSecret)
            && (flags.scopes.Some? ==> m.scopes == flags.scopes.value)
            && (flags.scopes.None? ==> m.scopes == c.scopes)
            && (flags.redirect.Some? ==> m.redirectUrl == flags.redirect.value)
            && (flags.redirect.None? ==> m.redirectUrl == c.redirectUrl)
            && m.version == c.version && m.name == c.name && m.refreshToken == c.refreshToken
            && m.idToken == c.idToken && m.accessToken == c.accessToken
  {
  }

  /** Because `--redirect` has a default, a login without it resets the
      stored redirect URL to `http://localhost:8080/`. */
  lemma MergeResetsRedirect(c: ConfigRecord, given: LoginFlags)
    requires ResolveFlags(given).Ok? && given.redirect.None?
    ensures Merge(c, ResolveFlags(given).value).redirectUrl == DefaultRedirect
  {
  }

  /** Lines 168-183, in place. */
  method MergeFlags(config: ConfigFile, flags: LoginFlags)
    modifies config
    ensures config.Record() == Merge(old(config.Record()), flags)
  {
    if flags.clientId.Some? {
      config.clientId := flags.clientId.value;
    }
    if flags.secret.Some? {
      config.clientSecret := flags.secret.value;
    }
    if flags.scopes.Some? {
      config.scopes := flags.scopes.value;
    }
    if flags.redirect.Some? {
      config.redirectUrl := flags.redirect.value;
    }
  }

  function SavedMessage(name: string, base: ConfigBasePath): string {
    "Saved configuration to " + ConfigFilePath(name, base).value
  }

  /** The profile the login runs on, the filesystem after it was prepared,
      and what was printed; an error is the message the command exits with. */
  datatype Prepared = Prepared(result: Result<ConfigRecord, string>, fs: FsState, stdout: seq<string>)

  /** Lines 101-184: a profile that does not read (for whatever reason) is
      built from the flags and saved; one that reads has the flags merged in. */
  function PrepareSpec(name: string, flags: LoginFlags, base: ConfigBasePath, s: FsState): Prepared {
    match ReadConfig(s, name, base)
    case Ok(c) => Prepared(Ok(Merge(c, flags)), s, [])
    case Err(_) =>
      match NewProfile(name, flags)
      case Err(m) => Prepared(Err(m), s, [])
      case Ok(c) =>
        var (r, t) := SaveOutcome(s, base, c);
        if r.Err? then Prepared(Err(Display(r.error)), t, [])
        else Prepared(Ok(c), t, [SavedMessage(name, base)])
  }

  /** Lines 101-184. */
  method PrepareProfile(name: string, flags: LoginFlags, base: ConfigBasePath, fs: FileSystem)
    returns (r: Result<ConfigFile, string>, stdout: seq<string>)
    modifies fs
    ensures var e := PrepareSpec(name, flags, base, old(fs.state));
            && fs.state == e.fs && stdout == e.stdout
            && (r.Err? <==> e.result.Err?)
            && (r.Err? ==> r.error == e.result.error)
            && (r.Ok? ==> fresh(r.value) && r.value.Record() == e.result.value)
  {
    stdout := [];
    var read := ReadConfig(fs.state, name, base);
    if read.Ok? {
      var config := new ConfigFile.FromRecord(read.value);
      MergeFlags(config, flags);
      return Ok(config), stdout;
    }
    var profile := NewProfile(name, flags);
    if profile.Err? {
      return Err(profile.error), stdout;
    }
    var p := profile.value;
    var config := new ConfigFile.New(name, p.clientId, p.clientSecret, p.scopes, p.redirectUrl);
    var saved := SaveConfig(config, base, fs);
    if saved.Err? {
      return Err(Display(saved.error)), stdout;
    }
    stdout := [SavedMessage(name, base)];
    return Ok(config), stdout;
  }

  /** How a command ends: with an exit code, or by a panic. */
  datatype Status = Exited(code: nat) | Panicked(reason: string)

  /** Everything a command does. */
  datatype Run = Run(status: Status, stdout: seq<string>, stderr: seq<string>,
                     fs: FsState, calls: seq<Call>, shown: seq<AuthRequest>, replies: seq<(nat, string)>)

  /** `print_error_and_exit`. */
  function ErrorLine(message: string): string {
    "Error: " + message
  }

  function LoggedInMessage(name: string): string {
    "Successfully logged in and created the configuration profile " + name
  }

  /** The `login` arm. */
  function LoginCommandSpec(name: string, given: LoginFlags, base: ConfigBasePath, s: FsState, p: ProviderOracle,
                            codec: UrlCodec, browserFailure: Option<IoKind>, bindOk: bool, incoming: seq<Incoming>,
                            secrets: Secrets, now: nat): Run
  {
    match ResolveFlags(given)
    case Err(m) => Run(Exited(1), [], [m], s, [], [], [])
    case Ok(flags) =>
      var prep := PrepareSpec(name, flags, base, s);
      match prep.result
      case Err(m) => Run(Exited(1), prep.stdout, [ErrorLine(m)], prep.fs, [], [], [])
      case Ok(c) => LoginReport(prep.stdout, LoginSpec(c, prep.fs, base, p, codec, browserFailure, bindOk, incoming, secrets, now))
  }

  /** What the `login` arm reports once the login ran; the library's login
      never ends in `Exits` (`LoginFlow.LoginNeverExits`). */
  function LoginReport(stdout: seq<string>, e: LoginEffect): Run {
    match e.outcome
    case Aborted(why) => Run(Panicked(why), stdout, [], e.fs, e.calls, e.shown, e.replies)
    case Exits(m) => Run(Exited(1), stdout + [HandledErrorLine(m)], [], e.fs, e.calls, e.shown, e.replies)
    case Returned(Err(err)) => Run(Exited(1), stdout, [ErrorLine(Display(err))], e.fs, e.calls, e.shown, e.replies)
    case Returned(Ok(_)) => Run(Exited(0), stdout + [LoggedInMessage(e.record.name)], [], e.fs, e.calls, e.shown, e.replies)
  }

  /** A missing flag for a profile that does not read stops the command
      before anything is saved or sent. */
  lemma MissingFlagStopsLogin(name: string, given: LoginFlags, base: ConfigBasePath, s: FsState, p: ProviderOracle,
                              codec: UrlCodec, browserFailure: Option<IoKind>, bindOk: bool, incoming: seq<Incoming>,
                              secrets: Secrets, now: nat)
    requires ResolveFlags(given).Ok? && ReadConfig(s, name, base).Err?
    requires NewProfile(name, ResolveFlags(given).value).Err?
    ensures LoginCommandSpec(name, given, base, s, p, codec, browserFailure, bindOk, incoming, secrets, now)
            == Run(Exited(1), [], [ErrorLine(NewProfile(name, ResolveFlags(given).value).error)], s, [], [], [])
  {
  }

  /** A new profile is saved before the login starts: if that save fails,
      the command stops without contacting the provider; otherwise the login
      runs on the new profile over the filesystem the save left. */
  lemma NewProfileSavedBeforeLogin(name: string, given: LoginFlags, base: ConfigBasePath, s: FsState, p: ProviderOracle,
                                   codec: UrlCodec, browserFailure: Option<IoKind>, bindOk: bool, incoming: seq<Incoming>,
                                   secrets: Secrets, now: nat)
    requires ResolveFlags(given).Ok? && ReadConfig(s, name, base).Err?
    requires NewProfile(name, ResolveFlags(given).value).Ok?
    ensures var c := NewProfile(name, ResolveFlags(given).value).value;
            var (r, t) := SaveOutcome(s, base, c);
            var run := LoginCommandSpec(name, given, base, s, p, codec, browserFailure, bindOk, incoming, secrets, now);
            && c.refreshToken.None? && c.idToken.None? && c.accessToken.None?
            && (r.Err? ==> run == Run(Exited(1), [], [ErrorLine(Display(r.error))], t, [], [], []))
            && (r.Ok? ==>
                  && run.stdout[..1] == [SavedMessage(name, base)]
                  && var e := LoginSpec(c, t, base, p, codec, browserFailure, bindOk, incoming, secrets, now);
                     run.fs == e.fs && run.calls == e.calls && run.shown == e.shown)
  {
    var c := NewProfile(name, ResolveFlags(given).value).value;
    var (r, t) := SaveOutcome(s, base, c);
    var run := LoginCommandSpec(name, given, base, s, p, codec, browserFailure, bindOk, incoming, secrets, now);
    if r.Err? {
      assert PrepareSpec(name, ResolveFlags(given).value, base, s) == Prepared(Err(Display(r.error)), t, []);
    } else {
      assert PrepareSpec(name, ResolveFlags(given).value, base, s) == Prepared(Ok(c), t, [SavedMessage(name, base)]);
      var e := LoginSpec(c, t, base, p, codec, browserFailure, bindOk, incoming, secrets, now);
      assert run == LoginReport([SavedMessage(name, base)], e);
      LoginReportFollowsLogin([SavedMessage(name, base)], e);
    }
  }

  /** A profile that reads is merged with the flags and logged in without a
      save of its own beforehand. */
  lemma ExistingProfileMergedBeforeLogin(name: string, given: LoginFlags, base: ConfigBasePath, s: FsState,
                                         p: ProviderOracle, codec: UrlCodec, browserFailure: Option<IoKind>,
                                         bindOk: bool, incoming: seq<Incoming>, secrets: Secrets, now: nat)
    requires ResolveFlags(given).Ok? && ReadConfig(s, name, base).Ok?
    ensures var c := Merge(ReadConfig(s, name, base).value, ResolveFlags(given).value);
            var e := LoginSpec(c, s, base, p, codec, browserFailure, bindOk, incoming, secrets, now);
            var run := LoginCommandSpec(name, given, base, s, p, codec, browserFailure, bindOk, incoming, secrets, now);
            && run.fs == e.fs && run.calls == e.calls && run.shown == e.shown
            && (e.outcome.Returned? && e.outcome.result.Ok? <==> run.status == Exited(0))
  {
    var c := Merge(ReadConfig(s, name, base).value, ResolveFlags(given).value);
    assert PrepareSpec(name, ResolveFlags(given).value, base, s) == Prepared(Ok(c), s, []);
    var e := LoginSpec(c, s, base, p, codec, browserFailure, bindOk, incoming, secrets, now);
    assert LoginCommandSpec(name, given, base, s, p, codec, browserFailure, bindOk, incoming, secrets, now)
           == LoginReport([], e);
    LoginReportFollowsLogin([], e);
  }

  /** The command exits with 0 exactly when the login returned `Ok`, and
      reports the login's effects as they are. */
  lemma LoginReportFollowsLogin(stdout: seq<string>, e: LoginEffect)
    ensures var run := LoginReport(stdout, e);
            && run.fs == e.fs && run.calls == e.calls && run.shown == e.shown && run.replies == e.replies
            && (e.outcome.Returned? && e.outcome.result.Ok? <==> run.status == Exited(0))
            && (e.outcome.Aborted? <==> run.status.Panicked?)
            && run.stdout[..|stdout|] == stdout
  {
  }

  /** The `login` arm. */
  method LoginCommand(name: string, given: LoginFlags, base: ConfigBasePath, fs: FileSystem, provider: Provider,
                      browser: Browser, listener: Listener, codec: UrlCodec, secrets: Secrets, now: nat)
    returns (status: Status, stdout: seq<string>, stderr: seq<string>)
    modifies fs, provider, browser, listener
    ensures var run := LoginCommandSpec(name, given, base, old(fs.state), provider.oracle, codec, browser.failure,
                                        listener.bindOk, listener.incoming, secrets, now);
            && status == run.status && stdout == run.stdout && stderr == run.stderr && fs.state == run.fs
            && provider.calls == old(provider.calls) + run.calls
            && browser.shown == old(browser.shown) + run.shown
            && listener.replies == old(listener.replies) + run.replies
  {
    var resolved := ResolveFlags(given);
    if resolved.Err? {
      return Exited(1), [], [resolved.error];
    }
    var prepared;
    prepared, stdout := PrepareProfile(name, resolved.value, base, fs);
    if prepared.Err? {
      return Exited(1), stdout, [ErrorLine(prepared.error)];
    }
    var config := prepared.value;
    var outcome := GoogleLogin(config, base, fs, provider, browser, listener, codec, secrets, now);
    match outcome
    case Aborted(why) => return Panicked(why), stdout, [];
    case Exits(m) => return Exited(1), stdout + [HandledErrorLine(m)], [];
    case Returned(Err(err)) => return Exited(1), stdout, [ErrorLine(Display(err))];
    case Returned(Ok(_)) => return Exited(0), stdout + [LoggedInMessage(config.name)], [];
  }

  /** The `accesstoken` arm. */
  function AccessTokenCommandSpec(name: string, base: ConfigBasePath, s: FsState, p: ProviderOracle,
                                  now: nat, refreshNow: nat): Run
  {
    var e := GetAccessSpec(name, base, s, p, now, refreshNow);
    match e.result
    case Err(err) => Run(Exited(1), [], [ErrorLine(Display(err))], e.fs, e.calls, [], [])
    case Ok(t) => Run(Exited(0), [t.secret], [], e.fs, e.calls, [], [])
  }

  /** The command prints the secret of the token the lookup returns, and
      otherwise the lookup's error. */
  lemma AccessTokenCommandReports(name: string, base: ConfigBasePath, s: FsState, p: ProviderOracle,
                                  now: nat, refreshNow: nat)
    ensures var run := AccessTokenCommandSpec(name, base, s, p, now, refreshNow);
            var e := GetAccessSpec(name, base, s, p, now, refreshNow);
            && (run.status == Exited(0) <==> e.result.Ok?)
            && (e.result.Ok? ==> run.stdout == [e.result.value.secret] && run.stderr == [])
            && (e.result.Err? ==> run.stdout == [] && run.stderr == ["Error: " + Display(e.result.error)])
            && run.fs == e.fs && run.calls == e.calls
  {
  }

  /** The `accesstoken` arm. */
  method AccessTokenCommand(name: string, base: ConfigBasePath, fs: FileSystem, provider: Provider,
                            now: nat, refreshNow: nat)
    returns (status: Status, stdout: seq<string>, stderr: seq<string>)
    modifies fs, provider
    ensures var run := AccessTokenCommandSpec(name, base, old(fs.state), provider.oracle, now, refreshNow);
            && status == run.status && stdout == run.stdout && stderr == run.stderr && fs.state == run.fs
            && provider.calls == old(provider.calls) + run.calls
  {
    var accessToken := GetAccessTokenFromConfig(name, base, fs, provider, now, refreshNow);
    if accessToken.Err? {
      return Exited(1), [], [ErrorLine(Display(accessToken.error))];
    }
    return Exited(0), [accessToken.value.secret], [];
  }

  function IdTokenCorruptMessage(name: string): string {
    "Could not read id token from " + name + ". Is the configuration corrupt?"
  }

  /** The `idtoken` arm: check the profile's ID token, then print it. */
  function IdTokenCommandSpec(name: string, base: ConfigBasePath, s: FsState, p: ProviderOracle,
                              now: nat, refreshNow: nat): Run
  {
    match ReadConfig(s, name, base)
    case Err(err) => Run(Exited(1), [], ["Error when reading configuration: " + Debug(err)], s, [], [], [])
    case Ok(c) => IdTokenAfterCheck(CheckSpec(c.idToken, c, s, base, p, now, refreshNow))
  }

  /** The `idtoken` arm once the token was checked. */
  function IdTokenAfterCheck(e: RefreshEffect): Run {
    if e.result.Err? then
      Run(Exited(1), [], ["Error when checking the token: " + Debug(e.result.error)], e.fs, e.calls, [], [])
    else
      match e.record.idToken
      case Some(t) => Run(Exited(0), [t.secret], [], e.fs, e.calls, [], [])
      case None => Run(Exited(1), [], [ErrorLine(IdTokenCorruptMessage(e.record.name))], e.fs, e.calls, [], [])
  }

  /** The `idtoken` arm refreshes exactly when the ID token has expired; an ID
      token that has not expired is printed as stored, without a request. */
  lemma IdTokenRefreshesWhenExpired(name: string, base: ConfigBasePath, s: FsState, p: ProviderOracle,
                                    now: nat, refreshNow: nat)
    requires ReadConfig(s, name, base).Ok?
    ensures var c := ReadConfig(s, name, base).value;
            var run := IdTokenCommandSpec(name, base, s, p, now, refreshNow);
            && (run.calls != [] <==> Expiry(c.idToken) < now)
            && (!NeedsRefresh(c.idToken, now) && c.idToken.Some? ==>
                  run == Run(Exited(0), [c.idToken.value.secret], [], s, [], [], []))
  {
    var c := ReadConfig(s, name, base).value;
    RefreshExactlyWhenExpired(c.idToken, c, s, base, p, now, refreshNow);
  }

  /** After a successful refresh, the ID token printed is the refreshed one. */
  lemma IdTokenPrintsRefreshed(name: string, base: ConfigBasePath, s: FsState, p: ProviderOracle,
                               now: nat, refreshNow: nat)
    requires ReadConfig(s, name, base).Ok?
    requires NeedsRefresh(ReadConfig(s, name, base).value.idToken, now)
    requires RefreshSpec(ReadConfig(s, name, base).value, s, base, p, refreshNow).result.Ok?
    ensures var e := RefreshSpec(ReadConfig(s, name, base).value, s, base, p, refreshNow);
            && e.record.idToken.Some?
            && IdTokenCommandSpec(name, base, s, p, now, refreshNow)
               == Run(Exited(0), [e.record.idToken.value.secret], [], e.fs, e.calls, [], [])
  {
    var c := ReadConfig(s, name, base).value;
    RefreshExactlyWhenExpired(c.idToken, c, s, base, p, now, refreshNow);
    RefreshSuccess(c, s, base, p, refreshNow);
  }

  /** A check that succeeds leaves an ID token to print unless the profile had
      none and the clock reads 0, the one case the check does not refresh. */
  lemma IdTokenCorruptOnlyAtTimeZero(name: string, base: ConfigBasePath, s: FsState, p: ProviderOracle,
                                     now: nat, refreshNow: nat)
    requires ReadConfig(s, name, base).Ok?
    requires CheckSpec(ReadConfig(s, name, base).value.idToken, ReadConfig(s, name, base).value,
                       s, base, p, now, refreshNow).result.Ok?
    requires IdTokenCommandSpec(name, base, s, p, now, refreshNow).status != Exited(0)
    ensures now == 0 && ReadConfig(s, name, base).value.idToken.None?
    ensures IdTokenCommandSpec(name, base, s, p, now, refreshNow).stderr
            == [ErrorLine(IdTokenCorruptMessage(ReadConfig(s, name, base).value.name))]
  {
    var c := ReadConfig(s, name, base).value;
    RefreshExactlyWhenExpired(c.idToken, c, s, base, p, now, refreshNow);
    if NeedsRefresh(c.idToken, now) {
      RefreshSuccess(c, s, base, p, refreshNow);
      assert false;
    }
  }

  /** The `idtoken` arm. */
  method IdTokenCommand(name: string, base: ConfigBasePath, fs: FileSystem, provider: Provider,
                        now: nat, refreshNow: nat)
    returns (status: Status, stdout: seq<string>, stderr: seq<string>)
    modifies fs, provider
    ensures var run := IdTokenCommandSpec(name, base, old(fs.state), provider.oracle, now, refreshNow);
            && status == run.status && stdout == run.stdout && stderr == run.stderr && fs.state == run.fs
            && provider.calls == old(provider.calls) + run.calls
  {
    var read := ReadConfig(fs.state, name, base);
    if read.Err? {
      return Exited(1), [], ["Error when reading configuration: " + Debug(read.error)];
    }
    var config := new ConfigFile.FromRecord(read.value);
    var checked := CheckToken(config.idToken, config, base, fs, provider, now, refreshNow);
    if checked.Err? {
      return Exited(1), [], ["Error when checking the token: " + Debug(checked.error)];
    }
    match config.idToken
    case Some(t) => return Exited(0), [t.secret], [];
    case None => return Exited(1), [], [ErrorLine(IdTokenCorruptMessage(config.name))];
  }
}

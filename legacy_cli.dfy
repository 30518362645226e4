/** The `login`, `accesstoken` and `idtoken` commands of the older binary,
    built on the older store, login flow and refresh flow, which keep their
    profiles in the home directory's `.googauth` and report plain messages. */
module LegacyCli {
  import opened Wrappers
  import opened Errors
  import opened Records
  import opened Paths
  import opened FileSystem
  import opened ConfigStore
  import opened OpenId
  import opened Callback
  import opened RefreshFlow
  import opened Lifecycle
  import opened LegacyConfigStore
  import opened LegacyRefreshFlow
  import opened LegacyLoginFlow
  import opened Cli

  /** The line printed once a new profile is saved: only when the home
      directory, and with it the profile's path, is known. */
  function LegacySavedLines(home: Option<Path>, name: string): seq<string> {
    match GoogauthFile(home, name)
    case Some(path) => ["Saved configuration to " + path]
    case None => []
  }

  /** Lines 119-215: a profile that does not read is built from the flags and
      saved; one that reads has the flags merged in. */
  function LegacyPrepareSpec(name: string, flags: LoginFlags, home: Option<Path>, s: FsState): Prepared {
    match LegacyReadConfig(s, home, name)
    case Some(c) => Prepared(Ok(Merge(c, flags)), s, [])
    case None =>
      match NewProfile(name, flags)
      case Err(m) => Prepared(Err(m), s, [])
      case Ok(c) =>
        var (r, t) := LegacySaveOutcome(s, home, c);
        if r.Err? then Prepared(Err(r.error.message), t, [])
        else Prepared(Ok(c), t, LegacySavedLines(home, name))
  }

  /** In a home directory, preparing a profile reads, builds, merges and
      saves exactly as the library binary does in `.googauth`; only a failed
      save's message is the bare I/O or JSON text. */
  lemma LegacyPrepareMatchesLibrary(name: string, flags: LoginFlags, home: Path, s: FsState)
    ensures var old_ := LegacyPrepareSpec(name, flags, Some(home), s);
            var lib := PrepareSpec(name, flags, HomeBase(home), s);
            && old_.fs == lib.fs
            && (old_.result.Ok? <==> lib.result.Ok?)
            && (old_.result.Ok? ==> old_.result.value == lib.result.value)
            && (lib.result.Ok? && ReadConfig(s, name, HomeBase(home)).Err? ==>
                  && |old_.stdout| == 1 && |lib.stdout| == 1
                  && Canon(old_.stdout[0][|"Saved configuration to "|..]) == Canon(lib.stdout[0][|"Saved configuration to "|..]))
  {
    LegacyReadIsLibraryRead(s, Some(home), name);
    var base := HomeBase(home);
    if ReadConfig(s, name, base).Err? && NewProfile(name, flags).Ok? {
      LegacySaveIsLibrarySave(s, Some(home), NewProfile(name, flags).value);
      SavedLinesAgree(name, home);
    }
  }

  /** The older binary names the saved file under `.googauth` in the home
      directory, which resolves to the library's path for that base. */
  lemma SavedLinesAgree(name: string, home: Path)
    ensures var lines := LegacySavedLines(Some(home), name);
            var prefix := "Saved configuration to ";
            && |lines| == 1 && |prefix| <= |lines[0]| && |prefix| <= |SavedMessage(name, HomeBase(home))|
            && Canon(lines[0][|prefix|..]) == Canon(SavedMessage(name, HomeBase(home))[|prefix|..])
  {
    var base := HomeBase(home);
    var file := GoogauthFile(Some(home), name).value;
    assert LegacySavedLines(Some(home), name) == ["Saved configuration to " + file];
    var prefix := "Saved configuration to ";
    assert (prefix + file)[|prefix|..] == file;
    assert (prefix + ConfigFilePath(name, base).value)[|prefix|..] == ConfigFilePath(name, base).value;
    assert file == Push(Push(home, ".googauth"), name);
    if PlainName(name) {
      ChildPath(home, ".googauth");
    }
  }

  /** Lines 119-215. */
  method LegacyPrepareProfile(name: string, flags: LoginFlags, home: Option<Path>, fs: FileSystem)
    returns (r: Result<ConfigFile, string>, stdout: seq<string>)
    modifies fs
    ensures var e := LegacyPrepareSpec(name, flags, home, old(fs.state));
            && fs.state == e.fs && stdout == e.stdout
            && (r.Err? <==> e.result.Err?)
            && (r.Err? ==> r.error == e.result.error)
            && (r.Ok? ==> fresh(r.value) && r.value.Record() == e.result.value)
  {
    stdout := [];
    var read := LegacyReadConfig(fs.state, home, name);
    if read.Some? {
      var config := new ConfigFile.FromRecord(read.value);
      MergeFlags(config, flags);
      return Ok(config), stdout;
    }
    var profile := NewProfile(name, flags);
    if profile.Err? {
      return Err(profile.error), stdout;
    }
    var p := profile.value;
    var config := new ConfigFile.New(name, p.clientId, p.clientSecret, p.scopes, p.redirectUrl);
    var saved := LegacySaveConfig(config, home, fs);
    if saved.Err? {
      return Err(saved.error.message), stdout;
    }
    stdout := LegacySavedLines(home, name);
    return Ok(config), stdout;
  }

  /** The `login` arm of the older binary. */
  function LegacyLoginCommandSpec(name: string, given: LoginFlags, home: Option<Path>, s: FsState, p: ProviderOracle,
                                  codec: UrlCodec, parseError: string, browserFailure: Option<IoKind>, bindOk: bool,
                                  incoming: seq<Incoming>, secrets: Secrets, now: nat): Run
  {
    match ResolveFlags(given)
    case Err(m) => Run(Exited(1), [], [m], s, [], [], [])
    case Ok(flags) =>
      var prep := LegacyPrepareSpec(name, flags, home, s);
      match prep.result
      case Err(m) => Run(Exited(1), prep.stdout, [ErrorLine(m)], prep.fs, [], [], [])
      case Ok(c) =>
        LegacyLoginReport(prep.stdout, LegacyLoginSpec(c, prep.fs, home, p, codec, parseError, browserFailure,
                                                       bindOk, incoming, secrets, now))
  }

  /** What the `login` arm reports once the login ran. */
  function LegacyLoginReport(stdout: seq<string>, e: LegacyLoginEffect): Run {
    match e.outcome
    case Aborted(why) => Run(Panicked(why), stdout, [], e.fs, e.calls, e.shown, e.replies)
    case Exits(m) => Run(Exited(1), stdout + [HandledErrorLine(m)], [], e.fs, e.calls, e.shown, e.replies)
    case Returned(Err(err)) => Run(Exited(1), stdout, [ErrorLine(err.message)], e.fs, e.calls, e.shown, e.replies)
    case Returned(Ok(_)) => Run(Exited(0), stdout + [LoggedInMessage(e.record.name)], [], e.fs, e.calls, e.shown, e.replies)
  }

  /** The command exits with 0 exactly when the login returned `Ok`, panics
      exactly when the login did, exits with 1 after `handle_error`'s line on
      standard output when the login ended there, and reports the login's
      effects as they are. */
  lemma LegacyLoginReportFollowsLogin(stdout: seq<string>, e: LegacyLoginEffect)
    ensures var run := LegacyLoginReport(stdout, e);
            && run.fs == e.fs && run.calls == e.calls && run.shown == e.shown && run.replies == e.replies
            && (e.outcome.Returned? && e.outcome.result.Ok? <==> run.status == Exited(0))
            && (e.outcome.Aborted? <==> run.status.Panicked?)
            && (e.outcome.Exits? ==>
                  run.status == Exited(1) && run.stderr == []
                  && run.stdout == stdout + [HandledErrorLine(e.outcome.message)])
            && (e.outcome.Returned? && e.outcome.result.Err? ==>
                  run.stderr == ["Error: " + e.outcome.result.error.message])
            && run.stdout[..|stdout|] == stdout
  {
  }

  /** A new profile is saved before the login starts: if that save fails the
      command stops with the save's message and does not contact the
      provider; otherwise the login runs on the new profile over the
      filesystem the save left. */
  lemma LegacyNewProfileSavedBeforeLogin(name: string, given: LoginFlags, home: Option<Path>, s: FsState,
                                         p: ProviderOracle, codec: UrlCodec, parseError: string,
                                         browserFailure: Option<IoKind>, bindOk: bool, incoming: seq<Incoming>,
                                         secrets: Secrets, now: nat)
    requires ResolveFlags(given).Ok? && LegacyReadConfig(s, home, name).None?
    requires NewProfile(name, ResolveFlags(given).value).Ok?
    ensures var c := NewProfile(name, ResolveFlags(given).value).value;
            var (r, t) := LegacySaveOutcome(s, home, c);
            var run := LegacyLoginCommandSpec(name, given, home, s, p, codec, parseError, browserFailure, bindOk,
                                              incoming, secrets, now);
            && (r.Err? ==> run == Run(Exited(1), [], [ErrorLine(r.error.message)], t, [], [], []))
            && (home.None? ==> run == Run(Exited(1), [], [ErrorLine(HomeMissing)], s, [], [], []))
            && (r.Ok? ==>
                  var e := LegacyLoginSpec(c, t, home, p, codec, parseError, browserFailure, bindOk, incoming, secrets, now);
                  run.fs == e.fs && run.calls == e.calls && run.shown == e.shown)
  {
    var c := NewProfile(name, ResolveFlags(given).value).value;
    LegacySaveIsLibrarySave(s, home, c);
    var (r, t) := LegacySaveOutcome(s, home, c);
    if r.Ok? {
      var prep := Prepared(Ok(c), t, LegacySavedLines(home, name));
      assert LegacyPrepareSpec(name, ResolveFlags(given).value, home, s) == prep;
      LegacyLoginReportFollowsLogin(prep.stdout, LegacyLoginSpec(c, t, home, p, codec, parseError, browserFailure,
                                                                 bindOk, incoming, secrets, now));
    }
  }

  /** The `login` arm of the older binary. */
  method LegacyLoginCommand(name: string, given: LoginFlags, home: Option<Path>, fs: FileSystem, provider: Provider,
                            browser: Browser, listener: Listener, codec: UrlCodec, parseError: string,
                            secrets: Secrets, now: nat)
    returns (status: Status, stdout: seq<string>, stderr: seq<string>)
    modifies fs, provider, browser, listener
    ensures var run := LegacyLoginCommandSpec(name, given, home, old(fs.state), provider.oracle, codec, parseError,
                                              browser.failure, listener.bindOk, listener.incoming, secrets, now);
            && status == run.status && stdout == run.stdout && stderr == run.stderr && fs.state == run.fs
            && provider.calls == old(provider.calls) + run.calls
            && browser.shown == old(browser.shown) + run.shown
            && listener.replies == old(listener.replies) + run.replies
  {
    var resolved := ResolveFlags(given);
    if resolved.Err? {
      return Exited(1), [], [resolved.error];
    }
    var prepared;
    prepared, stdout := LegacyPrepareProfile(name, resolved.value, home, fs);
    if prepared.Err? {
      return Exited(1), stdout, [ErrorLine(prepared.error)];
    }
    var config := prepared.value;
    var outcome := LegacyGoogleLogin(config, home, fs, provider, browser, listener, codec, parseError, secrets, now);
    match outcome
    case Aborted(why) => return Panicked(why), stdout, [];
    case Exits(m) => return Exited(1), stdout + [HandledErrorLine(m)], [];
    case Returned(Err(err)) => return Exited(1), stdout, [ErrorLine(err.message)];
    case Returned(Ok(_)) => return Exited(0), stdout + [LoggedInMessage(config.name)], [];
  }

  /** Lines 294-314: `check_token`, refreshing when the token's expiry is
      before `now`; `refreshNow` is the clock reading inside the refresh. */
  function LegacyCheckSpec(token: Option<Token>, c: ConfigRecord, s: FsState, home: Option<Path>, p: ProviderOracle,
                           now: nat, refreshNow: nat): LegacyRefreshEffect
  {
    if NeedsRefresh(token, now) then LegacyRefreshSpec(c, s, home, p, refreshNow)
    else LegacyRefreshEffect(Returned(Ok(())), c, s, [])
  }

  /** Lines 294-314. */
  method LegacyCheckToken(token: Option<Token>, config: ConfigFile, home: Option<Path>, fs: FileSystem,
                          provider: Provider, now: nat, refreshNow: nat) returns (o: Outcome<(), SimpleError>)
    modifies config, fs, provider
    ensures var e := LegacyCheckSpec(token, old(config.Record()), old(fs.state), home, provider.oracle, now, refreshNow);
            && o == e.outcome && config.Record() == e.record && fs.state == e.fs
            && provider.calls == old(provider.calls) + e.calls
  {
    var tokenExpiration := match token case Some(t) => t.exp case None => 0;
    if tokenExpiration < now {
      o := LegacyRefreshGoogleLogin(config, home, fs, provider, refreshNow);
    } else {
      o := Returned(Ok(()));
    }
  }

  /** Which token a command prints. */
  datatype TokenKind = AccessTokenKind | IdTokenKind

  function Select(kind: TokenKind, c: ConfigRecord): Option<Token> {
    match kind
    case AccessTokenKind => c.accessToken
    case IdTokenKind => c.idToken
  }

  function KindLabel(kind: TokenKind): string {
    match kind
    case AccessTokenKind => "access token"
    case IdTokenKind => "id token"
  }

  function NoSuchConfig(name: string): string {
    "No such configuration: " + name
  }

  function CorruptMessage(kind: TokenKind, name: string): string {
    "Could not read " + KindLabel(kind) + " from " + name + ". Is the configuration corrupt?"
  }

  /** Lines 230-277: the `accesstoken` and `idtoken` arms, which differ only
      in the token they check and print. */
  function LegacyTokenCommandSpec(kind: TokenKind, name: string, home: Option<Path>, s: FsState, p: ProviderOracle,
                                  now: nat, refreshNow: nat): Run
  {
    match LegacyReadConfig(s, home, name)
    case None => Run(Exited(1), [], [ErrorLine(NoSuchConfig(name))], s, [], [], [])
    case Some(c) => LegacyTokenAfterCheck(kind, LegacyCheckSpec(Select(kind, c), c, s, home, p, now, refreshNow))
  }

  /** The token arms once the token was checked. */
  function LegacyTokenAfterCheck(kind: TokenKind, e: LegacyRefreshEffect): Run {
    match e.outcome
    case Aborted(why) => Run(Panicked(why), [], [], e.fs, e.calls, [], [])
    case Exits(m) => Run(Exited(1), [HandledErrorLine(m)], [], e.fs, e.calls, [], [])
    case Returned(Err(err)) => Run(Exited(1), [], [ErrorLine(err.message)], e.fs, e.calls, [], [])
    case Returned(Ok(_)) =>
      match Select(kind, e.record)
      case Some(t) => Run(Exited(0), [t.secret], [], e.fs, e.calls, [], [])
      case None => Run(Exited(1), [], [ErrorLine(CorruptMessage(kind, e.record.name))], e.fs, e.calls, [], [])
  }

  /** A successful refresh of the older flow leaves both tokens present. */
  lemma LegacyRefreshLeavesTokens(c: ConfigRecord, s: FsState, home: Option<Path>, p: ProviderOracle, now: nat)
    requires LegacyRefreshSpec(c, s, home, p, now).outcome.Returned?
    requires LegacyRefreshSpec(c, s, home, p, now).outcome.result.Ok?
    ensures home.Some?
    ensures LegacyRefreshSpec(c, s, home, p, now).record.accessToken.Some?
    ensures LegacyRefreshSpec(c, s, home, p, now).record.idToken.Some?
  {
    if home.None? {
      LegacyRefreshCheckOrder(c, s, home, p, now);
      assert false;
    }
    LegacyRefreshMatchesLibrary(c, s, home.value, p, now);
    RefreshSuccess(c, s, HomeBase(home.value), p, now);
  }

  /** A token arm refreshes exactly when the token's expiry is before `now`;
      a token that has not expired is printed as stored, without a request. */
  lemma LegacyTokenRefreshesWhenExpired(kind: TokenKind, name: string, home: Option<Path>, s: FsState,
                                        p: ProviderOracle, now: nat, refreshNow: nat)
    requires LegacyReadConfig(s, home, name).Some?
    ensures var c := LegacyReadConfig(s, home, name).value;
            var run := LegacyTokenCommandSpec(kind, name, home, s, p, now, refreshNow);
            && (run.calls != [] <==> Expiry(Select(kind, c)) < now)
            && (!NeedsRefresh(Select(kind, c), now) && Select(kind, c).Some? ==>
                  run == Run(Exited(0), [Select(kind, c).value.secret], [], s, [], [], []))
  {
    var c := LegacyReadConfig(s, home, name).value;
    var e := LegacyCheckSpec(Select(kind, c), c, s, home, p, now, refreshNow);
    assert LegacyTokenCommandSpec(kind, name, home, s, p, now, refreshNow) == LegacyTokenAfterCheck(kind, e);
    if !NeedsRefresh(Select(kind, c), now) {
      assert e == LegacyRefreshEffect(Returned(Ok(())), c, s, []);
    }
  }

  /** After a successful refresh, the token printed is the refreshed one. */
  lemma LegacyTokenPrintsRefreshed(kind: TokenKind, name: string, home: Option<Path>, s: FsState,
                                   p: ProviderOracle, now: nat, refreshNow: nat)
    requires LegacyReadConfig(s, home, name).Some?
    requires NeedsRefresh(Select(kind, LegacyReadConfig(s, home, name).value), now)
    requires LegacyRefreshSpec(LegacyReadConfig(s, home, name).value, s, home, p, refreshNow).outcome == Returned(Ok(()))
    ensures var e := LegacyRefreshSpec(LegacyReadConfig(s, home, name).value, s, home, p, refreshNow);
            && Select(kind, e.record).Some?
            && LegacyTokenCommandSpec(kind, name, home, s, p, now, refreshNow)
               == Run(Exited(0), [Select(kind, e.record).value.secret], [], e.fs, e.calls, [], [])
  {
    var c := LegacyReadConfig(s, home, name).value;
    LegacyRefreshLeavesTokens(c, s, home, p, refreshNow);
  }

  /** The corrupt-profile message needs a profile without that token and a
      clock at 0, the one case the check does not refresh. */
  lemma LegacyCorruptOnlyAtTimeZero(kind: TokenKind, name: string, home: Option<Path>, s: FsState,
                                    p: ProviderOracle, now: nat, refreshNow: nat)
    requires LegacyReadConfig(s, home, name).Some?
    requires var c := LegacyReadConfig(s, home, name).value;
             LegacyCheckSpec(Select(kind, c), c, s, home, p, now, refreshNow).outcome.Returned?
    requires var c := LegacyReadConfig(s, home, name).value;
             LegacyCheckSpec(Select(kind, c), c, s, home, p, now, refreshNow).outcome.result.Ok?
    requires LegacyTokenCommandSpec(kind, name, home, s, p, now, refreshNow).status != Exited(0)
    ensures now == 0 && Select(kind, LegacyReadConfig(s, home, name).value).None?
    ensures LegacyTokenCommandSpec(kind, name, home, s, p, now, refreshNow).stderr
            == [ErrorLine(CorruptMessage(kind, LegacyReadConfig(s, home, name).value.name))]
  {
    var c := LegacyReadConfig(s, home, name).value;
    if NeedsRefresh(Select(kind, c), now) {
      LegacyRefreshLeavesTokens(c, s, home, p, refreshNow);
      assert false;
    }
  }

  /** In a home directory, the older `accesstoken` prints on standard output
      what the library binary's prints over the same `.googauth` directory,
      except that a failed discovery during the refresh prints
      `handle_error`'s line where the library binary prints nothing there; it
      succeeds exactly when the library binary does, and leaves the same
      files and requests behind. */
  lemma LegacyAccessTokenMatchesLibrary(name: string, home: Path, s: FsState, p: ProviderOracle,
                                        now: nat, refreshNow: nat)
    ensures var old_ := LegacyTokenCommandSpec(AccessTokenKind, name, Some(home), s, p, now, refreshNow);
            var lib := AccessTokenCommandSpec(name, HomeBase(home), s, p, now, refreshNow);
            var exits := ReadConfig(s, name, HomeBase(home)).Ok?
                         && NeedsRefresh(ReadConfig(s, name, HomeBase(home)).value.accessToken, now)
                         && !p.discovers;
            && (exits ==> old_.stdout == [HandledErrorLine(DiscoveryFailed)] && lib.stdout == [])
            && (!exits ==> old_.stdout == lib.stdout)
            && old_.fs == lib.fs && old_.calls == lib.calls
            && (old_.status == Exited(0) <==> lib.status == Exited(0))
  {
    var base := HomeBase(home);
    LegacyReadIsLibraryRead(s, Some(home), name);
    if ReadConfig(s, name, base).Ok? {
      var c := ReadConfig(s, name, base).value;
      var le := LegacyCheckSpec(c.accessToken, c, s, Some(home), p, now, refreshNow);
      var ce := CheckSpec(c.accessToken, c, s, base, p, now, refreshNow);
      if NeedsRefresh(c.accessToken, now) {
        LegacyRefreshMatchesLibrary(c, s, home, p, refreshNow);
      }
      assert LegacyTokenCommandSpec(AccessTokenKind, name, Some(home), s, p, now, refreshNow)
             == LegacyTokenAfterCheck(AccessTokenKind, le);
      assert GetAccessSpec(name, base, s, p, now, refreshNow) == AccessAfterCheck(ce);
      AccessAfterCheckAgrees(le, ce);
    }
  }

  /** Once the checks agree, the older arm reports what the library's lookup returns. */
  lemma AccessAfterCheckAgrees(le: LegacyRefreshEffect, ce: RefreshEffect)
    requires le.record == ce.record && le.fs == ce.fs && le.calls == ce.calls
    requires le.outcome.Returned? && le.outcome.result.Ok? <==> ce.result.Ok?
    ensures var o := LegacyTokenAfterCheck(AccessTokenKind, le);
            var a := AccessAfterCheck(ce);
            && o.fs == a.fs && o.calls == a.calls
            && (o.status == Exited(0) <==> a.result.Ok?)
            && (a.result.Ok? ==> o.stdout == [a.result.value.secret])
            && (a.result.Err? && !le.outcome.Exits? ==> o.stdout == [])
            && (le.outcome.Exits? ==> o.status == Exited(1) && o.stdout == [HandledErrorLine(le.outcome.message)])
  {
  }

  /** Lines 230-277. */
  method LegacyTokenCommand(kind: TokenKind, name: string, home: Option<Path>, fs: FileSystem, provider: Provider,
                            now: nat, refreshNow: nat)
    returns (status: Status, stdout: seq<string>, stderr: seq<string>)
    modifies fs, provider
    ensures var run := LegacyTokenCommandSpec(kind, name, home, old(fs.state), provider.oracle, now, refreshNow);
            && status == run.status && stdout == run.stdout && stderr == run.stderr && fs.state == run.fs
            && provider.calls == old(provider.calls) + run.calls
  {
    var read := LegacyReadConfig(fs.state, home, name);
    if read.None? {
      return Exited(1), [], [ErrorLine(NoSuchConfig(name))];
    }
    var config := new ConfigFile.FromRecord(read.value);
    var token := if kind == AccessTokenKind then config.accessToken else config.idToken;
    assert token == Select(kind, read.value);
    ghost var s0, calls0 := fs.state, provider.calls;
    var checked := LegacyCheckToken(token, config, home, fs, provider, now, refreshNow);
    ghost var e := LegacyCheckSpec(token, read.value, s0, home, provider.oracle, now, refreshNow);
    assert LegacyTokenCommandSpec(kind, name, home, s0, provider.oracle, now, refreshNow)
           == LegacyTokenAfterCheck(kind, e);
    assert checked == e.outcome && config.Record() == e.record && fs.state == e.fs && provider.calls == calls0 + e.calls;
    match checked
    case Aborted(why) => return Panicked(why), [], [];
    case Exits(m) => return Exited(1), [HandledErrorLine(m)], [];
    case Returned(Err(err)) => return Exited(1), [], [ErrorLine(err.message)];
    case Returned(Ok(_)) =>
      var printed := if kind == AccessTokenKind then config.accessToken else config.idToken;
      match printed
      case Some(t) => return Exited(0), [t.secret], [];
      case None => return Exited(1), [], [ErrorLine(CorruptMessage(kind, config.name))];
  }
}

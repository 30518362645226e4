# googauth in Dafny

googauth caches Google OpenID Connect credentials. Each profile is a JSON
file under `~/.googauth`. A profile records:

- the OAuth client id and secret;
- the scopes;
- the redirect URL;
- the refresh token;
- the ID token and the access token, each with its expiry in seconds since the epoch.

`googauth login <profile>` works in two steps:

1. It creates or updates the profile from the command-line flags.
2. It runs the OAuth 2.0 authorization code grant (section 4.1 of RFC 6749).
   The grant uses PKCE (section 4 of RFC 7636) and the `state` check
   (section 10.12 of RFC 6749). A one-shot HTTP server on 127.0.0.1:8080
   receives the redirect.

`googauth accesstoken <profile>` and `googauth idtoken <profile>` print the
cached token. They first run the refresh grant (section 6 of RFC 6749) when
the token has expired.

The repository holds this logic twice:

- **The current version** is the library crate `googauth-lib` plus its
  command-line client `googauth/src/main.rs`.
- **The older single-crate version** is `src/`, together with
  `googauth/src/googauth/refresh_flow.rs`. It reports `SimpleError`
  messages instead of `LibError`. It ends the process, by a panic or through `handle_error`, where the library
  returns an error. Its login always requests the fixed scopes
  openid/email/profile, without PKCE.

The model covers both versions, module by module:

| module | models |
|---|---|
| `Records` | the `ConfigFile`/`Token` record (a class `ConfigFile` updated in place, and its value `ConfigRecord`) |
| `Errors` | `LibError` and its `Display`/`Debug` texts, with the texts of the I/O, JSON and URL error payloads abstract, and the `SimpleError` messages |
| `FileSystem` | the filesystem as a map from path components to (kind, mode, content), with per-operation injected faults; one `FileSystem` object whose methods apply the step functions |
| `Serde` | serialisation of a record to an abstract token sequence, with its decoder |
| `Paths` | `PathBuf::push` and the components of a path |
| `ConfigStore` | `googauth-lib/src/config_file.rs`: `ConfigBasePath::default`, `config_file`, `list_configs`, `read_config`, `save_config` |
| `OpenId` | the `openidconnect` calls, as oracles behind a `Provider` object that logs every call, and the browser |
| `Callback` | the redirect server: the first accepted connection, the request line, the query pairs, the fixed reply |
| `LoginFlow`, `RefreshFlow`, `Lifecycle` | `googauth-lib/src/login_flow.rs`, `refresh_flow.rs` and `lib.rs` |
| `Cli` | `googauth/src/main.rs`: the `login`, `accesstoken` and `idtoken` arms |
| `LegacyConfigStore`, `LegacyLoginFlow`, `LegacyRefreshFlow`, `LegacyCli` | the older version |

Each flow has three parts:

- a function that computes what the flow does: its outcome, the profile afterwards, the filesystem afterwards, and the provider calls, browser requests and replies it makes;
- a method over the mutable objects whose `ensures` equates its results and new state with that function;
- lemmas that state the source's guarantees about the function.

Other inputs become parameters:

- Library results are oracle inputs: discovery, the token endpoint, claims verification, percent-decoding, URL parsing, the browser, and the outcome of each accepted connection.
- The clock (`now`) is a parameter.
- The CSRF state, the nonce and the PKCE pair are a `Secrets` parameter.
- A `panic`/`unwrap` failure is the outcome `Aborted(reason)`. The older version's `handle_error` prints `ERROR: <message>` on standard output and calls `exit(1)` (src/googauth/errors.rs:4-13); that is the outcome `Exits(message)`.

The code and the project's description of its behaviour differ in several places. The model follows the code there, with one exception. The code loses the error of the final write of a save. The model keeps both that code as written and a corrected save, and every flow uses the corrected one (see "## Findings"). The places where the model follows the code:

- A missing profile file makes `read_config` fail with `IoError`, not with a dedicated not-found error (googauth-lib/src/config_file.rs:112).
- The refresh flow never stores a refresh token returned by the provider. The old one is kept (googauth-lib/src/refresh_flow.rs:56-75).
- The listener is bound only after the browser has been opened. It is bound at 127.0.0.1:8080 whatever the redirect URL says (googauth-lib/src/login_flow.rs:60,75).
- `listener.incoming()` never ends. `NoResponse` (googauth-lib/src/login_flow.rs:171) is reached in the model only because the model's sequence of connections is finite. With a real listener it is unreachable.

## Model

| member | source | states |
|---|---|---|
| Records.ConfigFile.New | googauth-lib/src/config_file.rs:27-45 | the new profile has version 1, the given name, client id, secret and redirect URL, the scopes in the given order, and no refresh, ID or access token |
| Errors.EscapedRoundTrip | googauth-lib/src/errors.rs:4-39 | the escaping of a string payload in the derived `Debug` text loses nothing: reading the escaped text back gives the string |
| Errors.DebugEscapesQuote | googauth-lib/src/errors.rs:4-35 | the `Debug` text of `NoRefreshTokenForConfig` for the name `a"b` is `NoRefreshTokenForConfig("a\"b")`, with the quote escaped |
| ConfigStore.DefaultBasePath | googauth-lib/src/config_file.rs:53-62 | fails with `HomeDirectoryNotFound` exactly when there is no home directory; otherwise the base path is the home directory followed by `.googauth` |
| Paths.ChildPath | googauth-lib/src/config_file.rs:83-84 | pushing a plain file name onto any path gives that path's components followed by the name |
| ConfigStore.ConfigFilePath | googauth-lib/src/config_file.rs:82-86 | never fails and touches no file; a plain name is appended to the base path, and an absolute name replaces it, as `PathBuf::push` does |
| ConfigStore.ReadConfig | googauth-lib/src/config_file.rs:109-116 | succeeds exactly when the file opens, reads and decodes, and returns the decoded record; fails with `IoError` exactly when the open fails, and with `JsonError` otherwise |
| FileSystem.OpenFile | googauth-lib/src/config_file.rs:112 | opening succeeds exactly when the path exists and no open fault is injected for it |
| FileSystem.ReadAll | googauth-lib/src/config_file.rs:113-114 | reading succeeds exactly when the path is a regular file without a read fault, and yields its content |
| Serde.RoundTrip | googauth-lib/src/config_file.rs:13-24 | decoding the encoding of any record gives that record back (derived `Serialize`/`Deserialize`) |
| Serde.EmptyIsMalformed | googauth-lib/src/config_file.rs:114 | the empty content of a truncated profile file does not decode |
| ConfigStore.EntryStep | googauth-lib/src/config_file.rs:95-101 | one directory entry aborts the listing exactly when the entry fails or its name is not UTF-8; it contributes a record exactly when it is a regular file that `read_config` accepts, and then that record |
| ConfigStore.ListSpec | googauth-lib/src/config_file.rs:91-106 | a base path that is not a directory gives `ConfigsDirectoryNotADirectory(base)` |
| ConfigStore.ReadableIndicesAre | googauth-lib/src/config_file.rs:94-103 | the readable entries are listed in increasing position, and every readable regular-file entry is among them |
| ConfigStore.CollectKeepsReadable | googauth-lib/src/config_file.rs:92-104 | when nothing aborts, the listing is exactly the records of the readable regular-file entries, in directory order; unreadable, undecodable and non-file entries are skipped |
| ConfigStore.CollectAbortsAtFirst | googauth-lib/src/config_file.rs:95-98 | the listing fails exactly when some entry aborts, and its error is that of the first aborting entry |
| ConfigStore.ListConfigs | googauth-lib/src/config_file.rs:88-107 | the loop over the directory entries returns the listing the reference function defines and changes nothing |
| ConfigStore.ChildEntryReadable | googauth-lib/src/config_file.rs:92-104 | when `read_dir` yields the directory's entries and the listing does not abort, a regular file directly inside the directory whose profile reads has an entry the listing keeps |
| ConfigStore.ListCoversDirectory | googauth-lib/src/config_file.rs:88-107 | when `read_dir` yields the directory's entries, a successful listing holds the profile of every regular file directly inside the directory that reads |
| ConfigStore.ListOncePerFile | googauth-lib/src/config_file.rs:92-104 | when `read_dir` yields the directory's entries, no file is listed twice |
| ConfigStore.ListOneValidOneCorrupt | googauth-lib/src/config_file.rs:99-101 | a directory holding one valid and one undecodable profile lists just the valid one |
| FileSystem.MkDirAll | googauth-lib/src/config_file.rs:121 | on success the path is a directory and every existing node is unchanged; a failure changes nothing |
| FileSystem.SetMode | googauth-lib/src/config_file.rs:123 | on success only the mode of that path changes; a failure changes nothing |
| FileSystem.CreateTruncate | googauth-lib/src/config_file.rs:128 | on success the path is an empty regular file, keeping an existing file's mode; no other node changes; a failure changes nothing |
| FileSystem.WriteAll | googauth-lib/src/config_file.rs:136 | on success only that file's content changes, to the written content; a failure changes nothing |
| FileSystem.FileSystem.CreateDirAll | googauth-lib/src/config_file.rs:121 | the method's result and new state are those of the directory-creation step |
| FileSystem.FileSystem.SetPermissions | googauth-lib/src/config_file.rs:131 | the method's result and new state are those of the mode step |
| FileSystem.FileSystem.Create | googauth-lib/src/config_file.rs:128 | the method's result and new state are those of the create/truncate step |
| FileSystem.FileSystem.Write | googauth-lib/src/config_file.rs:136 | the method's result and new state are those of the write step |
| ConfigStore.SaveOutcome | googauth-lib/src/config_file.rs:118-139 | a save reports only `IoError` or `JsonError` and never alters the injected faults |
| ConfigStore.SaveSucceeds | googauth-lib/src/config_file.rs:118-139 | after a successful save the base directory has mode 0700 and `base/name` is a regular file with mode 0600 holding the encoded profile; no other existing node changed |
| ConfigStore.SaveThenRead | googauth-lib/src/config_file.rs:118-139 | reading a successfully saved profile back yields the same record |
| ConfigStore.SaveStopsAtFirstFailure | googauth-lib/src/config_file.rs:121-136 | the steps run in the order create dir, chmod 0700, create file, chmod 0600, write; the first failing step's error is returned with the state reached so far; a chmod failure after the create leaves an empty file |
| ConfigStore.AsWrittenHidesWriteFailure | googauth-lib/src/config_file.rs:134-136 | listed under Findings |
| ConfigStore.SaveConfig | googauth-lib/src/config_file.rs:118-139 | the method on the filesystem object returns exactly the result of the corrected save `SaveOutcome` and leaves exactly its state; a failed final write is reported, which the code as written does not do |
| OpenId.AddScopesAppends | googauth-lib/src/login_flow.rs:52-54 | the fold adds the profile's scopes to the request in order |
| LoginFlow.AuthorizeRequestCarries | googauth-lib/src/login_flow.rs:39-56 | the authorize request carries the CSRF state, the nonce, `access_type=offline`, the consent prompt, the PKCE challenge and exactly the profile's scopes in order |
| OpenId.Browser.Open | googauth-lib/src/login_flow.rs:60 | opening the browser shows the request and fails only as the environment dictates |
| OpenId.Provider.Discover | googauth-lib/src/login_flow.rs:28-30 | discovery succeeds as the provider dictates and is logged |
| Callback.FirstAccepted | googauth-lib/src/login_flow.rs:76-77 | no connection is chosen exactly when every accept failed; otherwise the chosen one is the first accepted connection |
| Callback.Words | googauth-lib/src/login_flow.rs:86 | `split_whitespace` yields non-empty words without whitespace |
| Callback.WordsAreNonEmptyPieces | googauth-lib/src/login_flow.rs:86 | the words are exactly the non-empty pieces between single whitespace characters, in order |
| Callback.RequestLineTarget | googauth-lib/src/login_flow.rs:86 | the second word of `GET <target> HTTP/1.1` is the target |
| Callback.SplitOn | googauth-lib/src/login_flow.rs:89-90 | splitting the query on `&` gives at least one piece, no piece contains `&`, and joining the pieces with `&` gives the query back |
| Callback.FindPair | googauth-lib/src/login_flow.rs:89-109 | no value is found exactly when no pair has the key; otherwise the value is that of the first pair with the key |
| Callback.ParseCallback | googauth-lib/src/login_flow.rs:81-110 | succeeds if and only if there is a request line with at least two words, the target parses after `http://localhost`, and both a `code` and a `state` pair exist; the values are those of the first such pairs |
| Callback.ParseProviderRedirect | googauth-lib/src/login_flow.rs:81-110 | a redirect `GET /?code=c&state=s HTTP/1.1` yields the decoded `c` and `s` |
| Callback.ParseGoogleRedirect | googauth-lib/src/login_flow.rs:86-109 | Google's redirect `GET /?state=s&code=c&scope=sc HTTP/1.1` yields the decoded `c` and `s`: the pairs are found by name whatever their order, and the `scope` pair is ignored |
| Callback.ReplyIsFixed | googauth-lib/src/login_flow.rs:112-118 | the reply is `HTTP/1.1 200 OK\r\ncontent-length: 27\r\n\r\n` followed by the body `Go back to your terminal :)`, and 27 is the body's length |
| Callback.Listener.Send | googauth-lib/src/login_flow.rs:118 | the reply is recorded against the connection, and the write succeeds as that connection dictates |
| OpenId.Provider.ExchangeCode | googauth-lib/src/login_flow.rs:125-133 | the code exchange returns the provider's answer for that code and verifier and is logged |
| LoginFlow.CheckResponse | googauth-lib/src/login_flow.rs:135-157 | the checks fail in the order missing ID token, unverified claims (`OpenIdError`), missing refresh token, missing scopes; on success the grant holds the granted scopes and refresh token, the ID token with its claims expiry, and the access token expiring at `now + expires_in`, or 0 |
| LoginFlow.CsrfMismatchStopsLogin | googauth-lib/src/login_flow.rs:120-122 | a mismatched `state` ends in `TokenCsrfError` after the reply, with no code exchange and with the profile and filesystem unchanged |
| LoginFlow.ExchangeNeedsMatchingState | googauth-lib/src/login_flow.rs:120-133 | any code exchange follows an accepted connection whose reply was written and whose `state` matched, and sends that code with the PKCE verifier |
| LoginFlow.FinishCalls | googauth-lib/src/login_flow.rs:120-133 | after the reply, the only request is one code exchange carrying the PKCE verifier, and only when the state matched |
| LoginFlow.LoginChangesOnlyBySaving | googauth-lib/src/login_flow.rs:140-167 | a login either leaves the profile and filesystem as they were or saves the updated profile, with the save's result as its own; an abort or any error other than a save error leaves both unchanged |
| LoginFlow.LoginSuccess | googauth-lib/src/login_flow.rs:159-167 | after a successful login only scopes, refresh token, ID token and access token changed, to the granted values; the profile was saved and reads back equal |
| LoginFlow.FirstAcceptedDecides | googauth-lib/src/login_flow.rs:76-77 | connections after the first accepted one have no influence on the login |
| LoginFlow.NoResponseOnlyWithoutConnections | googauth-lib/src/login_flow.rs:169-171 | `NoResponse` is the result exactly when no connection was accepted |
| LoginFlow.ConnectionNeverNoResponse | googauth-lib/src/login_flow.rs:77-168 | serving an accepted connection never yields `NoResponse` |
| LoginFlow.FinishLogin | googauth-lib/src/login_flow.rs:120-167 | the method compares the state, exchanges, checks and updates the profile in place, then saves, exactly as the reference function says |
| LoginFlow.ServeConnection | googauth-lib/src/login_flow.rs:81-168 | the method serves one accepted connection as the reference function says, writing the reply to it |
| LoginFlow.AwaitCallback | googauth-lib/src/login_flow.rs:75-171 | the loop skips failed accepts and serves the first accepted connection, as the reference function says |
| LoginFlow.GoogleLogin | googauth-lib/src/login_flow.rs:18-172 | the whole login, with its outcome, profile, filesystem, provider calls, browser request and replies, equals the reference function |
| LoginFlow.LoginNeverExits | googauth-lib/src/login_flow.rs:18-172 | the library's login never prints and exits on its own: each failure is returned or is a panic |
| RefreshFlow.RefreshCheckOrder | googauth-lib/src/refresh_flow.rs:20-28 | discovery comes first, so a failing provider gives `OpenIdError` even without a refresh token; without a refresh token the result is `NoRefreshTokenForConfig(name)`, with nothing changed |
| RefreshFlow.RefreshRequestCarriesScopes | googauth-lib/src/refresh_flow.rs:41-47 | any refresh exchange sends the profile's refresh token and all its scopes in order, after discovery |
| OpenId.Provider.ExchangeRefresh | googauth-lib/src/refresh_flow.rs:47-54 | the refresh exchange returns the provider's answer for that request and is logged |
| RefreshFlow.RefreshFailures | googauth-lib/src/refresh_flow.rs:49-71 | a failed exchange (`CouldNotRefreshToken`) changes nothing; `NoIdToken` or `CouldNotReadClaims` leave only the new access token in memory and nothing saved |
| RefreshFlow.RefreshKeepsIdentity | googauth-lib/src/refresh_flow.rs:56-75 | a refresh changes only the access and ID tokens, and the filesystem changes only through the final save, whose result it returns |
| RefreshFlow.RefreshSuccess | googauth-lib/src/refresh_flow.rs:56-75 | on success the access token expires at `now + expires_in`, or 0, and the ID token carries the expiry of its claims checked without a nonce; the profile is saved |
| RefreshFlow.RefreshGoogleLogin | googauth-lib/src/refresh_flow.rs:10-76 | the method, with its scope loop and in-place updates, equals the reference refresh |
| Lifecycle.RefreshExactlyWhenExpired | googauth-lib/src/lib.rs:42-51 | an absent token counts as expiry 0; a refresh runs exactly when `expiry < now`, so not when `exp == now`; without a refresh the result is `Ok` and the profile is unchanged; with one, it is the refresh's |
| Lifecycle.CheckDependsOnlyOnExpiry | googauth-lib/src/lib.rs:32-47 | the check depends on the token passed in only through its expiry, not on which field of the profile it came from |
| Lifecycle.CheckErrors | googauth-lib/src/lib.rs:48 | the check fails only with the refresh flow's own errors, propagated unchanged |
| Lifecycle.CheckToken | googauth-lib/src/lib.rs:32-52 | the method equals the reference check |
| Lifecycle.LookupPropagatesReadErrors | googauth-lib/src/lib.rs:20 | a failing `read_config` is the result, with nothing else done |
| Lifecycle.CheckedTokenPresent | googauth-lib/src/lib.rs:22-25 | after a successful check that refreshed, the access token is present; without a refresh the profile is as read |
| Lifecycle.LookupReturnsSavedToken | googauth-lib/src/lib.rs:20-27 | an access token returned after a refresh is the one the refresh stored, and the saved profile reads back with it |
| Lifecycle.CorruptOnlyAtTimeZero | googauth-lib/src/lib.rs:22-27 | `CouldNotReadConfigCorrupt` happens only at `now == 0`, with an absent access token |
| Lifecycle.ExpiredTokenScenario | googauth-lib/src/lib.rs:16-28 | a token expired at 100, checked at 200 with a grant valid for 3600 seconds, yields a new token expiring at 3800 |
| Lifecycle.GetAccessTokenFromConfig | googauth-lib/src/lib.rs:16-28 | the method equals the reference lookup |
| Cli.ResolveFlags | googauth/src/main.rs:43-68 | an empty scope value is rejected with "You must specify at least one scope"; otherwise the flags are kept and a missing redirect becomes `http://localhost:8080/` |
| Cli.NewProfile | googauth/src/main.rs:104-150 | a new profile is built exactly when client id, secret, scopes and redirect are all given |
| Cli.NewProfileCheckOrder | googauth/src/main.rs:104-150 | the missing flags are reported in the order client id, secret, scopes, redirect, each message ending with the profile name; otherwise the profile is `ConfigFile::new` of the flags |
| Cli.ResolvedFlagsHaveRedirect | googauth/src/main.rs:134-143 | because of the default, the missing-redirect error never happens |
| Cli.MergeIsFieldWise | googauth/src/main.rs:168-183 | each given flag overwrites exactly its own field; absent flags, the version, the name and all tokens are kept |
| Cli.MergeResetsRedirect | googauth/src/main.rs:178-180 | without `--redirect`, the merge resets an existing profile's redirect URL to the default |
| Cli.MergeFlags | googauth/src/main.rs:168-183 | the in-place merge leaves the profile equal to the field-wise merge |
| Cli.PrepareProfile | googauth/src/main.rs:101-184 | the method reads the profile, then builds and saves a new one or merges into the existing one, as the reference function says |
| Cli.MissingFlagStopsLogin | googauth/src/main.rs:104-143 | a missing flag for a new profile exits 1 with that message, before any save or login |
| Cli.NewProfileSavedBeforeLogin | googauth/src/main.rs:144-167 | a new profile, without tokens, is saved before the login; a save failure exits 1 with its message; otherwise "Saved configuration to" is printed and the login runs on the saved filesystem |
| Cli.ExistingProfileMergedBeforeLogin | googauth/src/main.rs:168-197 | an existing profile is merged, then logged in without being saved first; the command exits 0 exactly when the login succeeds |
| Cli.LoginReportFollowsLogin | googauth/src/main.rs:186-197 | the command exits 0 exactly when the login succeeds, panics exactly when the login aborts, and keeps what was printed before |
| Cli.LoginCommand | googauth/src/main.rs:93-198 | the `login` arm equals the reference command |
| Cli.AccessTokenCommandReports | googauth/src/main.rs:199-209 | `accesstoken` prints the secret and exits 0 exactly when the lookup succeeds; otherwise it prints `Error: ` and the error |
| Cli.AccessTokenCommand | googauth/src/main.rs:199-209 | the `accesstoken` arm equals the reference command |
| Cli.IdTokenRefreshesWhenExpired | googauth/src/main.rs:213-227 | `idtoken` contacts the provider exactly when the ID token has expired; a present, unexpired token is printed with nothing else done |
| Cli.IdTokenPrintsRefreshed | googauth/src/main.rs:221-227 | after a successful refresh, `idtoken` prints the refreshed ID token |
| Cli.IdTokenCorruptOnlyAtTimeZero | googauth/src/main.rs:226-235 | after a successful check, the "corrupt" message naming the profile is reachable only at `now == 0` with no ID token |
| Cli.IdTokenCommand | googauth/src/main.rs:210-236 | the `idtoken` arm equals the reference command |
| LegacyConfigStore.GoogauthDir | src/googauth/config_file.rs:57-66 | `None` exactly when there is no home directory; otherwise home followed by `.googauth` |
| LegacyConfigStore.GoogauthFile | src/googauth/config_file.rs:68-72 | `None` exactly when there is no home directory; otherwise `home/.googauth/name` |
| LegacyConfigStore.LegacyReadIsLibraryRead | src/googauth/config_file.rs:74-90 | the old read is the library read with every error, open or parse, turned into `None` |
| LegacyConfigStore.LegacySaveIsLibrarySave | src/googauth/config_file.rs:92-142 | without a home directory the save fails with "Could not get home directory" and changes nothing; otherwise it runs the library's steps in the same order, with the same effect, and reports each error's text |
| LegacyConfigStore.LegacySaveThenRead | src/googauth/config_file.rs:92-142 | after a successful old save the directory has mode 0700 and the file mode 0600, and the old read returns the profile |
| LegacyConfigStore.LegacySaveConfig | src/googauth/config_file.rs:92-142 | the method equals the old save, which is the corrected library save into the home directory, so a failed final write is reported |
| LegacyConfigStore.SaveInDirectory | src/googauth/config_file.rs:96-141 | the steps after the home lookup are the library save into that directory, with `SimpleError` texts |
| LegacyLoginFlow.LegacyAuthorizeRequestIsFixed | src/googauth/login_flow.rs:51-63 | the old request carries offline access, the consent prompt, no PKCE and exactly the scopes openid, email, profile, whatever the profile's scopes |
| LegacyLoginFlow.LegacyCheckMatchesLibrary | src/googauth/login_flow.rs:148-174 | the old checks accept exactly the responses the library's accept, with the same grant; a claims failure ends the process through `handle_error` where the library returns `OpenIdError`, and each other failure has its own message |
| LegacyLoginFlow.LegacyCsrfMismatchStopsLogin | src/googauth/login_flow.rs:130-132 | a mismatched `state` returns the CSRF message after the reply, with no exchange and nothing changed |
| LegacyLoginFlow.LegacyExchangeWithoutPkce | src/googauth/login_flow.rs:130-141 | every code exchange follows a matching state and sends no PKCE verifier |
| LegacyLoginFlow.LegacyFinishCalls | src/googauth/login_flow.rs:130-141 | after the callback, the only request is one code exchange without a PKCE verifier, and only when the state matched |
| LegacyLoginFlow.LegacyLibraryFailuresExit | src/googauth/login_flow.rs:38-156 | discovery, token-endpoint and claims failures end the process through `handle_error` with that step's message, leaving profile and filesystem unchanged |
| LegacyLoginFlow.LegacyFinishFailuresExit | src/googauth/login_flow.rs:134-156 | after a matching `state`, a failed code exchange and a failed claims verification end the process through `handle_error` with their messages, leaving profile and filesystem unchanged |
| LegacyLoginFlow.LegacyGrantChangesOnlyBySaving | src/googauth/login_flow.rs:143-184 | all response checks run before any field is written; the grant either changes nothing or saves the updated profile |
| LegacyLoginFlow.LegacyLoginChangesOnlyBySaving | src/googauth/login_flow.rs:21-191 | the old login either leaves profile and filesystem as they were or saves the updated profile; a panic or a `handle_error` exit changes nothing |
| LegacyLoginFlow.LegacyLoginSuccess | src/googauth/login_flow.rs:176-184 | on success only scopes, refresh token, ID token and access token changed, to the granted values, and the saved profile reads back |
| LegacyLoginFlow.LegacyFinishLogin | src/googauth/login_flow.rs:130-184 | the method equals the reference old finish |
| LegacyLoginFlow.LegacyStoreGrant | src/googauth/login_flow.rs:143-184 | the method checks, updates in place and saves, as the reference function says |
| LegacyLoginFlow.LegacyServeConnection | src/googauth/login_flow.rs:91-185 | the method serves one accepted connection as the reference function says |
| LegacyLoginFlow.LegacyAwaitCallback | src/googauth/login_flow.rs:85-190 | the loop serves the first accepted connection, as the reference function says |
| LegacyLoginFlow.LegacyGoogleLogin | src/googauth/login_flow.rs:21-191 | the whole old login equals the reference function |
| LegacyRefreshFlow.LegacyRefreshMatchesLibrary | googauth/src/googauth/refresh_flow.rs:13-87 | the old refresh makes the same calls and leaves the same profile and filesystem as the library refresh; it succeeds exactly when the library one does, never panics, and exits through `handle_error` exactly where the library returns the discovery failure; its other errors correspond one to one |
| LegacyRefreshFlow.LegacyRefreshCheckOrder | googauth/src/googauth/refresh_flow.rs:20-34 | the refresh exits through `handle_error` exactly when discovery fails, before the refresh-token check; a missing refresh token is an error naming the profile, with no exchange |
| LegacyRefreshFlow.LegacyRefreshSuccess | googauth/src/googauth/refresh_flow.rs:62-86 | on success the access token and the ID token, with its claims expiry, are replaced, everything else is kept, and the saved profile reads back |
| LegacyCli.LegacyRefreshLeavesTokens | googauth/src/googauth/refresh_flow.rs:62-86 | a successful old refresh leaves both tokens present |
| LegacyRefreshFlow.LegacyRefreshGoogleLogin | googauth/src/googauth/refresh_flow.rs:13-87 | the method equals the reference old refresh |
| LegacyCli.LegacyPrepareMatchesLibrary | src/main.rs:119-215 | the old profile preparation builds, merges and saves exactly as the current client does, and announces the same saved path |
| LegacyCli.LegacyPrepareProfile | src/main.rs:119-215 | the method equals the reference old preparation |
| LegacyCli.LegacyNewProfileSavedBeforeLogin | src/main.rs:161-186 | a new profile is saved before the login; without a home directory or on a save failure the command exits 1 with the message |
| LegacyCli.LegacyLoginReportFollowsLogin | src/main.rs:217-228 | the command exits 0 exactly when the login succeeds and panics exactly when it panics; after `handle_error` it exits 1 with `ERROR: ` and the message as the last line of standard output; a returned error prints `Error: ` and the message on standard error |
| LegacyCli.LegacyLoginCommand | src/main.rs:111-229 | the old `login` arm equals the reference command, including the `handle_error` exits of the login |
| LegacyCli.LegacyCheckToken | src/main.rs:294-314 | the method equals the reference old check |
| LegacyCli.LegacyTokenRefreshesWhenExpired | src/main.rs:300-313 | a refresh runs exactly when the selected token's expiry, 0 if absent, is below `now`; a present unexpired token is printed with nothing else done |
| LegacyCli.LegacyTokenPrintsRefreshed | src/main.rs:241-268 | after a successful refresh the refreshed token is printed |
| LegacyCli.LegacyCorruptOnlyAtTimeZero | src/main.rs:243-276 | the "corrupt" message naming the profile is reachable only at `now == 0` with the token absent |
| LegacyCli.LegacyAccessTokenMatchesLibrary | src/main.rs:230-253 | the old `accesstoken` makes the same changes as the current one and succeeds exactly when it does; it prints the same standard output, except that a failed discovery during the refresh prints `ERROR: ` and the discovery message where the current one prints nothing |
| LegacyCli.AccessAfterCheckAgrees | src/main.rs:241-252 | once the older and the library check agree, the older `accesstoken` prints the secret the library returns and exits 0 exactly when it does; after `handle_error` it exits 1 with that line alone on standard output |
| LegacyCli.LegacyTokenCommand | src/main.rs:230-277 | the old `accesstoken`/`idtoken` arms equal the reference command, including the `handle_error` exit of the refresh |

## Left out

- TCP, the browser, stdout/stderr and `exit` are left out as I/O. Their effects are modelled instead:
  - connections are a finite sequence of accept results, each with its request line and write result;
  - replies, browser requests and the printed lines named in the model are recorded;
  - exit codes are a status.
- The "If the web browser did not open…" and "Waiting…" lines are not modelled.
- `openidconnect` internals are oracle inputs:
  - discovery;
  - building the authorize URL;
  - the HTTP token exchange;
  - JWT signature, nonce and claims validation.
- The issuer URL is a constant and is assumed valid. The `RedirectUrl` re-parse of an already parsed URL is assumed to succeed (googauth-lib/src/login_flow.rs:37, src/googauth/login_flow.rs:49).
- The library's login adds no explicit `openid` scope; the library adds it implicitly. The model requests exactly the profile's scopes.
- The randomness of the CSRF state, the nonce and the PKCE pair is left out. They arrive as the `Secrets` parameter.
- URL parsing and percent-decoding are abstract (`UrlCodec`). The model keeps the splitting on `&` and `=` and the first-match search.
- The serde_json text format is left out. Serialisation is a token sequence with a proved round trip.
- POSIX permission semantics and `cfg!(unix)` are left out. Unix is assumed, and a mode is a stored number.
- `async`/`.await` is modelled sequentially, since nothing runs concurrently.
- Integer width is left out:
  - the `i64 → u64` cast of the claims expiry;
  - `u64` overflow of `now + expires_in`;
  - the `u32` version.

  All are `nat`.
- clap parsing and environment variables are left out. Flags arrive as options with the scopes already split. A rejected scope prints only the message, without clap's usage text.
- Stale callers are modelled without their argument mismatch. googauth/src/main.rs calls the library without a base path, and googauth/src/googauth/refresh_flow.rs calls `save_config()` without one:
  - the model passes the base path to the current client as a parameter;
  - the standalone refresh saves the way the old client saves, into the home directory.
- `src/main.rs` imports `crate::googauth::refresh_flow`, which is not part of this model. The refresh modelled for the older client is googauth/src/googauth/refresh_flow.rs.
- The `list` arms are left out. The one in src/main.rs:99-110 calls a `list_configs` that the older crate does not define. The one in googauth/src/main.rs:80-92 is output formatting: it prints each `ConfigFile`, which has no `Display`.
- The "You must specify an configuration name" branch is left out as unreachable, because clap requires the argument.
- The "You must select a sub command" fallthrough is left out as argument handling.
- The legacy `ConfigFile::new` (src/googauth/config_file.rs:23-41) is identical to the library's and is modelled by `Records.ConfigFile.New`.
- `Token::new` is the `Token` constructor of the datatype.
- `handle_error`'s cause chain (src/googauth/errors.rs:7-10) is left out. The model prints its `ERROR: <message>` line and exits with 1; the `caused by:` lines that follow on the same `println!` are the `openidconnect` errors' texts, which are oracles here.
- `SimpleError::with` keeps only the message of the inner error.
- src/main.rs:177-183 looks up the saved path with a `ConfigFile::config_file` that the older crate does not define. The model prints the "Saved configuration to" line with the path `googauth_file` gives, whenever the home directory exists. Paths are strings, so the `to_str` failure case is left out.
- Lifecycle.CheckErrors: states only which errors can occur, not which refresh failure causes each one; RefreshFlow.RefreshCheckOrder and RefreshFlow.RefreshFailures state that.
- ConfigStore.SaveConfig: returns the result of the corrected save `SaveOutcome`, not of the code as written (`SaveOutcomeAsWritten`). The code reports `Ok(())` after a failed final write (googauth-lib/src/config_file.rs:134-136). Every flow saves through the corrected save: LoginFlow.LoginSpec, RefreshFlow.RefreshSpec, the Cli save before a login, LegacyConfigStore.LegacySaveOutcome, LegacyConfigStore.SaveInDirectory and the legacy flows. So the read-back conclusions of LoginFlow.LoginSuccess, RefreshFlow.RefreshSuccess, Lifecycle.LookupReturnsSavedToken, LegacyLoginFlow.LegacyLoginSuccess and LegacyRefreshFlow.LegacyRefreshSuccess hold of the corrected program. As written, a save whose final write fails reports success and leaves an empty file (ConfigStore.AsWrittenHidesWriteFailure).
- ConfigStore.SaveOutcomeAsWritten: models only a profile whose encoding fits the 8 KiB buffer of the `BufWriter`, so that the only write is the one at the drop, whose error is lost. A longer encoding is flushed while `serde_json::to_writer` runs, and a failure there is returned as `JsonError` (googauth-lib/src/config_file.rs:134-138). The model does not cut the encoding into buffer-sized writes.
- LegacyConfigStore.LegacySaveConfig: saves through the corrected library save, so it reports a failed final write. The code as written (src/googauth/config_file.rs:132-141) loses that error as the library does.
- ConfigStore.ListConfigs: the directory's entries are a parameter, in whatever order `read_dir` yields them. Its contract holds for every sequence of entries. ConfigStore.DirEntries states what `read_dir` yields: each entry directly inside the directory once, under its plain name. The lemmas ConfigStore.ListCoversDirectory and ConfigStore.ListOncePerFile assume it. The order of the entries is not modelled.
- The texts of the payloads of `IoError`, `JsonError` and `UrlError` are abstract in `Errors.Display` and `Errors.Debug`. `IoText` is the `Display` form of an OS error, even where Rust's derived `Debug` prints a structure (`Os { code: …, kind: …, message: … }`). `JsonText` is a fixed phrase in place of serde_json's `{:?}` with line and column. The model's `UrlError` carries no `url::ParseError`, so the `{0:?}` of the URL error is missing. `Errors.Quoted` escapes `"`, `\`, NUL, tab, line feed and carriage return as `{:?}` does, but writes other non-printable and grapheme-extending characters as themselves where Rust writes `\u{…}`.
- `Paths.Canon` and `Paths.Resolve` resolve a relative path as if it started at the root, and fold `..` lexically, without following symbolic links. Every base path the program builds is absolute (the home directory joined with `.googauth`), so this does not arise in the flows.
- The `ERR` line printed when the ID token's claims cannot be read (googauth-lib/src/refresh_flow.rs:68, googauth/src/googauth/refresh_flow.rs:79) is left out: its text is the `openidconnect` error, which is an oracle here. The outcome, `CouldNotReadClaims` or "Could not read id token claims", is modelled.
- ConfigStore.ListSpec: its own contract states only the not-a-directory error. The properties of the listing are in ConfigStore.CollectKeepsReadable and ConfigStore.CollectAbortsAtFirst, on the loop the reference function runs.

## Findings

| source | as written | input that shows it | evidently intended | confidence | as-written member | corrected member |
|---|---|---|---|---|---|---|
| googauth-lib/src/config_file.rs:134-138 | the profile is written through a `BufWriter` that `serde_json::to_writer` consumes and drops; the drop flushes and discards the flush error, so `save_config` returns `Ok(())` even when the bytes never reach the file (src/googauth/config_file.rs:132-141 does the same) | a profile that fits the buffer, saved where the final write fails (no space): the save reports `Ok(())`, and the file is left empty, so reading it back gives `JsonError` | the save reports the failed write as an error | not executed | ConfigStore.SaveOutcomeAsWritten (ConfigStore.AsWrittenHidesWriteFailure) | ConfigStore.SaveOutcome |

/** The error values of the library crate (`LibError`) and of the older binary
    (`SimpleError`, a message), with the operating-system error kinds the
    filesystem model produces. */
module Errors {

  /** The `std::io::ErrorKind`s the filesystem model can report. */
  datatype IoKind =
    | NotFound
    | PermissionDenied
    | AlreadyExists
    | IsADirectory
    | NotADirectory
    | NoSpace
    | OtherIo

  /** What a `serde_json::Error` wraps: malformed content, or an I/O failure
      while reading or writing through the JSON stream. */
  datatype JsonCause = Malformed | JsonIo(kind: IoKind)

  /** Mirrors `LibError`, one constructor per variant. */
  datatype LibError =
    | NoSuchConfiguration(configName: string)
    | HomeDirectoryNotFound
    | ConfigsDirectoryNotADirectory(path: string)
    | IoError(kind: IoKind)
    | FilenameError
    | JsonError(cause: JsonCause)
    | UrlError
    | TokenCsrfError
    | NoIdToken
    | NoRefreshToken
    | CouldNotRefreshToken
    | CouldNotReadClaims
    | NoScopes
    | NoResponse
    | NoRefreshTokenForConfig(configName: string)
    | CouldNotReadConfigCorrupt(configName: string)
    | OpenIdError(message: string)

  /** The older binary's error: a message only. */
  datatype SimpleError = SimpleError(message: string)

  /** The line `handle_error` prints on standard output before `exit(1)`;
      the chain of causes after it is not modelled. */
  function HandledErrorLine(message: string): string {
    "ERROR: " + message
  }

  /** `Display` of an `std::io::Error` carrying an OS error of this kind. */
  function IoText(kind: IoKind): string {
    match kind
    case NotFound => "No such file or directory (os error 2)"
    case PermissionDenied => "Permission denied (os error 13)"
    case AlreadyExists => "File exists (os error 17)"
    case IsADirectory => "Is a directory (os error 21)"
    case NotADirectory => "Not a directory (os error 20)"
    case NoSpace => "No space left on device (os error 28)"
    case OtherIo => "Input/output error (os error 5)"
  }

  /** `Display` of a `serde_json::Error`; line and column positions are not modelled. */
  function JsonText(cause: JsonCause): string {
    match cause
    case Malformed => "invalid configuration content"
    case JsonIo(kind) => IoText(kind)
  }

  /** The `#[error(...)]` message of each `LibError` variant. */
  function Display(e: LibError): string {
    match e
    case NoSuchConfiguration(n) => "No such configuration: " + n
    case HomeDirectoryNotFound => "Can not find home directory"
    case ConfigsDirectoryNotADirectory(p) => "Configs directory " + p + " is not a directory"
    case IoError(k) => "Error: " + IoText(k)
    case FilenameError => "Filename error"
    case JsonError(c) => "JSON error " + JsonText(c)
    case UrlError => "URL parse error"
    case TokenCsrfError => CsrfMessage
    case NoIdToken => "No ID token present"
    case NoRefreshToken => "No refresh token present"
    case CouldNotRefreshToken => "Could not refresh token"
    case CouldNotReadClaims => "Could not read claims"
    case NoScopes => "There were no scopes in the response"
    case NoResponse => "Could not get a response from the login flow"
    case NoRefreshTokenForConfig(n) => "There is no refresh token available for configuration " + n
    case CouldNotReadConfigCorrupt(n) => "Could not read access token from " + n + ". Is the configuration corrupt?"
    case OpenIdError(m) => "OpenID error: " + m
  }

  const CsrfMessage: string :=
    "The state sent to the server, and the state received from the server do not match - this may be a sign of a CSRF attack"

  /** The `{:?}` rendering of a `LibError`, as the newer binary prints it
      after "Error when ...". String payloads are quoted as Rust does. */
  function Debug(e: LibError): string {
    match e
    case NoSuchConfiguration(n) => "NoSuchConfiguration(" + Quoted(n) + ")"
    case HomeDirectoryNotFound => "HomeDirectoryNotFound"
    case ConfigsDirectoryNotADirectory(p) => "ConfigsDirectoryNotADirectory(" + Quoted(p) + ")"
    case IoError(k) => "IoError(" + IoText(k) + ")"
    case FilenameError => "FilenameError"
    case JsonError(c) => "JsonError(" + JsonText(c) + ")"
    case UrlError => "UrlError"
    case TokenCsrfError => "TokenCsrfError"
    case NoIdToken => "NoIdToken"
    case NoRefreshToken => "NoRefreshToken"
    case CouldNotRefreshToken => "CouldNotRefreshToken"
    case CouldNotReadClaims => "CouldNotReadClaims"
    case NoScopes => "NoScopes"
    case NoResponse => "NoResponse"
    case NoRefreshTokenForConfig(n) => "NoRefreshTokenForConfig(" + Quoted(n) + ")"
    case CouldNotReadConfigCorrupt(n) => "CouldNotReadConfigCorrupt(" + Quoted(n) + ")"
    case OpenIdError(m) => "OpenIdError(" + Quoted(m) + ")"
  }

  /** A string as the derived `Debug` writes it: in double quotes, with its
      characters escaped. */
  function Quoted(s: string): string {
    "\"" + Escaped(s) + "\""
  }

  /** The escape `{:?}` writes for one character of a string: a backslash
      before `"` and `\`, and the named escapes of NUL, tab, line feed and
      carriage return; any other character stands for itself. */
  function EscapeChar(c: char): string {
    match c
    case '"' => "\\\""
    case '\\' => "\\\\"
    case '\0' => "\\0"
    case '\t' => "\\t"
    case '\n' => "\\n"
    case '\r' => "\\r"
    case _ => [c]
  }

  function Escaped(s: string): string
    decreases |s|
  {
    if s == [] then [] else EscapeChar(s[0]) + Escaped(s[1..])
  }

  /** The character a backslash followed by `c` stands for. */
  function UnescapeLetter(c: char): char {
    match c
    case '0' => '\0'
    case 't' => '\t'
    case 'n' => '\n'
    case 'r' => '\r'
    case _ => c
  }

  /** Reading an escaped text back, as a Rust string literal is read. */
  function Unescaped(e: string): string
    decreases |e|
  {
    if e == [] then []
    else if e[0] == '\\' && |e| >= 2 then [UnescapeLetter(e[1])] + Unescaped(e[2..])
    else [e[0]] + Unescaped(e[1..])
  }

  lemma UnescapeEscapeChar(c: char, rest: string)
    ensures Unescaped(EscapeChar(c) + rest) == [c] + Unescaped(rest)
  {
    var e := EscapeChar(c) + rest;
    if |EscapeChar(c)| == 2 {
      assert e[0] == '\\' && e[2..] == rest;
    } else {
      assert e[0] == c && c != '\\' && e[1..] == rest;
    }
  }

  /** The escaping loses nothing: the quoted text reads back as the string
      that was written, so different names have different `Debug` texts. */
  lemma {:induction false} EscapedRoundTrip(s: string)
    ensures Unescaped(Escaped(s)) == s
    decreases |s|
  {
    if s != [] {
      UnescapeEscapeChar(s[0], Escaped(s[1..]));
      EscapedRoundTrip(s[1..]);
    }
  }

  /** A profile name with a double quote is written with that quote escaped. */
  lemma DebugEscapesQuote()
    ensures Debug(NoRefreshTokenForConfig("a\"b")) == "NoRefreshTokenForConfig(\"a\\\"b\")"
  {
    assert Escaped("a\"b") == "a" + Escaped("\"b");
    assert Escaped("b") == "b" + Escaped("");
  }
}

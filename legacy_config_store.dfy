/** The profile store of the older binary: profiles live in `.googauth` in
    the home directory, `read_config` answers with an `Option`, and
    `save_config` reports a `SimpleError`. */
module LegacyConfigStore {
  import opened Wrappers
  import opened Errors
  import opened Records
  import opened Serde
  import opened Paths
  import opened FileSystem
  import opened ConfigStore

  const HomeMissing: string := "Could not get home directory"

  /** `googauth_dir`: `.googauth` in the home directory, when there is one. */
  function GoogauthDir(home: Option<Path>): (r: Option<Path>)
    ensures r.None? <==> home.None?
    ensures r.Some? ==> Canon(r.value) == Canon(home.value) + [".googauth"]
  {
    match home
    case None => None
    case Some(dir) =>
      ChildPath(dir, ".googauth");
      Some(Push(dir, ".googauth"))
  }

  /** `googauth_file`: the profile's name pushed onto `googauth_dir`. */
  function GoogauthFile(home: Option<Path>, name: string): (r: Option<Path>)
    ensures r.None? <==> home.None?
    ensures r.Some? ==> r.value == Push(GoogauthDir(home).value, name)
    ensures r.Some? && PlainName(name) ==> Canon(r.value) == Canon(home.value) + [".googauth", name]
  {
    match GoogauthDir(home)
    case None => None
    case Some(dir) =>
      if PlainName(name) then
        ChildPath(dir, name);
        Some(Push(dir, name))
      else
        Some(Push(dir, name))
  }

  /** The directory the older store keeps its profiles in, as the library
      store's base path. */
  function HomeBase(home: Path): ConfigBasePath {
    ConfigBasePath(Push(home, ".googauth"))
  }

  /** `read_config`: `None` without a home directory, when the file does not
      open, and when its content does not read or decode. */
  function LegacyReadConfig(s: FsState, home: Option<Path>, name: string): Option<ConfigRecord> {
    match GoogauthFile(home, name)
    case None => None
    case Some(path) =>
      var k := Canon(path);
      match OpenFile(s, k)
      case Err(_) => None
      case Ok(_) =>
        match ReadAll(s, k)
        case Err(_) => None
        case Ok(content) => Decode(content)
  }

  /** The older read finds exactly the profiles the library's read finds in
      the same directory; each of its failures, whether the file is missing
      or corrupt, is the same `None`. */
  lemma LegacyReadIsLibraryRead(s: FsState, home: Option<Path>, name: string)
    ensures home.None? ==> LegacyReadConfig(s, home, name) == None
    ensures home.Some? ==> LegacyReadConfig(s, home, name) == ReadConfig(s, name, HomeBase(home.value)).ToOption()
    ensures home.Some? && ReadConfig(s, name, HomeBase(home.value)).Err? ==> LegacyReadConfig(s, home, name) == None
  {
  }

  /** `SimpleError::from` of the error a save step fails with: the message
      of the I/O or the JSON error. */
  function SaveMessage(e: LibError): string {
    match e
    case IoError(kind) => IoText(kind)
    case JsonError(cause) => JsonText(cause)
    case _ => Display(e)
  }

  /** `save_config` of the older store: the same five steps as the library's
      save, in the home directory's `.googauth`. */
  function LegacySaveOutcome(s: FsState, home: Option<Path>, c: ConfigRecord): (out: (Result<(), SimpleError>, FsState))
  {
    match GoogauthDir(home)
    case None => (Err(SimpleError(HomeMissing)), s)
    case Some(_) => AsSimple(SaveOutcome(s, HomeBase(home.value), c))
  }

  /** A save's outcome with its error turned into a `SimpleError`. */
  function AsSimple(out: (Result<(), LibError>, FsState)): (Result<(), SimpleError>, FsState) {
    if out.0.Err? then (Err(SimpleError(SaveMessage(out.0.error))), out.1) else (Ok(()), out.1)
  }

  /** Without a home directory nothing is touched; otherwise the older save
      does what the library's does and fails with the text of the same
      I/O or JSON error. */
  lemma LegacySaveIsLibrarySave(s: FsState, home: Option<Path>, c: ConfigRecord)
    ensures home.None? ==> LegacySaveOutcome(s, home, c) == (Err(SimpleError(HomeMissing)), s)
    ensures home.Some? ==>
              var (r, t) := SaveOutcome(s, HomeBase(home.value), c);
              && LegacySaveOutcome(s, home, c).1 == t
              && (LegacySaveOutcome(s, home, c).0.Ok? <==> r.Ok?)
              && (r.Err? && r.error.IoError? ==> LegacySaveOutcome(s, home, c).0 == Err(SimpleError(IoText(r.error.kind))))
              && (r.Err? && r.error.JsonError? ==> LegacySaveOutcome(s, home, c).0 == Err(SimpleError(JsonText(r.error.cause))))
  {
  }

  /** After a successful save `.googauth` is owner-only (0700) and the
      profile's file is a regular owner-only (0600) file that reads back as
      the saved profile. */
  lemma LegacySaveThenRead(s: FsState, home: Option<Path>, c: ConfigRecord)
    requires LegacySaveOutcome(s, home, c).0.Ok?
    requires PlainName(c.name)
    requires home.Some? ==> var k := Canon(GoogauthFile(home, c.name).value);
                            (Open, k) !in s.faults && (Read, k) !in s.faults
    ensures home.Some?
    ensures var t := LegacySaveOutcome(s, home, c).1;
            var dir := Canon(GoogauthDir(home).value);
            var file := Canon(GoogauthFile(home, c.name).value);
            && IsDir(t, dir) && t.nodes[dir].mode == DirModeOwnerOnly
            && IsFile(t, file) && t.nodes[file].mode == FileModeOwnerOnly
            && LegacyReadConfig(t, home, c.name) == Some(c)
  {
    var base := HomeBase(home.value);
    SaveSucceeds(s, base, c);
    SaveThenRead(s, base, c);
    LegacyReadIsLibraryRead(SaveOutcome(s, base, c).1, home, c.name);
  }

  /** `ConfigFile::save_config` of the older binary. */
  method LegacySaveConfig(config: ConfigFile, home: Option<Path>, fs: FileSystem) returns (r: Result<(), SimpleError>)
    modifies fs
    ensures (r, fs.state) == LegacySaveOutcome(old(fs.state), home, config.Record())
  {
    var googauthDir := GoogauthDir(home);
    if googauthDir.None? {
      return Err(SimpleError(HomeMissing));
    }
    r := SaveInDirectory(config, googauthDir.value, fs);
  }

  /** Lines 96-141: the five steps below `.googauth`. */
  method SaveInDirectory(config: ConfigFile, configDir: Path, fs: FileSystem) returns (r: Result<(), SimpleError>)
    modifies fs
    ensures (r, fs.state) == AsSimple(SaveOutcome(old(fs.state), ConfigBasePath(configDir), config.Record()))
  {
    var made := fs.CreateDirAll(configDir);
    if made.Err? {
      return Err(SimpleError(IoText(made.error)));
    }
    var dirMode := fs.SetPermissions(configDir, DirModeOwnerOnly);
    if dirMode.Err? {
      return Err(SimpleError(IoText(dirMode.error)));
    }
    var file := Push(configDir, config.name);
    var created := fs.Create(file);
    if created.Err? {
      return Err(SimpleError(IoText(created.error)));
    }
    var fileMode := fs.SetPermissions(file, FileModeOwnerOnly);
    if fileMode.Err? {
      return Err(SimpleError(IoText(fileMode.error)));
    }
    var written := fs.Write(file, Encode(config.Record()));
    if written.Err? {
      return Err(SimpleError(JsonText(JsonIo(written.error))));
    }
    return Ok(());
  }
}

/** The profile store of the library crate: where profiles live, reading one,
    listing all, and saving one with owner-only permissions. */
module ConfigStore {
  import opened Wrappers
  import opened Errors
  import opened Records
  import opened Serde
  import opened Paths
  import opened FileSystem

  /** The directory holding one file per profile. */
  datatype ConfigBasePath = ConfigBasePath(path: Path)

  /** `ConfigBasePath::default`: `.googauth` in the home directory. */
  function DefaultBasePath(home: Option<Path>): (r: Result<ConfigBasePath, LibError>)
    ensures r.Err? <==> home.None?
    ensures r.Err? ==> r.error == HomeDirectoryNotFound
    ensures r.Ok? ==> Canon(r.value.path) == Canon(home.value) + [".googauth"]
  {
    match home
    case None => Err(HomeDirectoryNotFound)
    case Some(dir) =>
      ChildPath(dir, ".googauth");
      Ok(ConfigBasePath(Push(dir, ".googauth")))
  }

  /** `ConfigFile::config_file`: the base path with the profile name pushed
      onto it. It never fails and never looks at the filesystem; a plain name
      denotes an entry directly inside the base directory, while an absolute
      name replaces the base path altogether. */
  function ConfigFilePath(name: string, base: ConfigBasePath): (r: Result<Path, LibError>)
    ensures r.Ok?
    ensures PlainName(name) ==> Canon(r.value) == Canon(base.path) + [name]
    ensures |name| > 0 && name[0] == '/' ==> r.value == name
  {
    if PlainName(name) then
      ChildPath(base.path, name);
      Ok(Push(base.path, name))
    else
      Ok(Push(base.path, name))
  }

  /** The resolved entry of profile `name`. */
  function ProfileKey(name: string, base: ConfigBasePath): Key {
    Canon(ConfigFilePath(name, base).value)
  }

  /** `ConfigFile::read_config`: open the profile's file (an `IoError` when
      that fails), then decode all of its content (a `JsonError` when reading
      fails or the content is not one profile). */
  function ReadConfig(s: FsState, name: string, base: ConfigBasePath): (r: Result<ConfigRecord, LibError>)
    ensures var k := ProfileKey(name, base);
            r.Ok? <==> OpenFile(s, k).Ok? && ReadAll(s, k).Ok? && Decode(s.nodes[k].content).Some?
    ensures r.Ok? ==> Decode(s.nodes[ProfileKey(name, base)].content) == Some(r.value)
    ensures r.Err? ==> (r.error.IoError? <==> OpenFile(s, ProfileKey(name, base)).Err?)
    ensures r.Err? ==> r.error.IoError? || r.error.JsonError?
  {
    var k := ProfileKey(name, base);
    match OpenFile(s, k)
    case Err(kind) => Err(IoError(kind))
    case Ok(_) =>
      match ReadAll(s, k)
      case Err(kind) => Err(JsonError(JsonIo(kind)))
      case Ok(content) =>
        match Decode(content)
        case None => Err(JsonError(Malformed))
        case Some(c) => Ok(c)
  }

  /** One item of the `read_dir` iterator, in the order the system yields
      them: an error, or the entry's file name and whether it is valid UTF-8. */
  datatype DirEntry = EntryError(kind: IoKind) | Entry(fileName: string, utf8: bool)

  /** The entry is a regular file (`Path::is_file`). */
  predicate IsFileEntry(s: FsState, base: ConfigBasePath, e: DirEntry) {
    e.Entry? && IsFile(s, Canon(Push(base.path, e.fileName)))
  }

  /** The entry stops the listing with an error. */
  predicate Aborts(s: FsState, base: ConfigBasePath, e: DirEntry) {
    e.EntryError? || (IsFileEntry(s, base, e) && !e.utf8)
  }

  /** The entry is a profile the listing keeps. */
  predicate Readable(s: FsState, base: ConfigBasePath, e: DirEntry) {
    IsFileEntry(s, base, e) && e.utf8 && ReadConfig(s, e.fileName, base).Ok?
  }

  /** What one iteration of the listing loop does with an entry. */
  function EntryStep(s: FsState, base: ConfigBasePath, e: DirEntry): (r: Result<seq<ConfigRecord>, LibError>)
    ensures r.Err? <==> Aborts(s, base, e)
    ensures r.Ok? ==> (r.value != [] <==> Readable(s, base, e))
    ensures r.Ok? && r.value != [] ==> r.value == [ReadConfig(s, e.fileName, base).value]
  {
    match e
    case EntryError(k) => Err(IoError(k))
    case Entry(n, utf8) =>
      if !IsFile(s, Canon(Push(base.path, n))) then Ok([])
      else if !utf8 then Err(FilenameError)
      else
        match ReadConfig(s, n, base)
        case Ok(c) => Ok([c])
        case Err(_) => Ok([])
  }

  /** The listing loop over the entries so far. */
  function Collect(s: FsState, base: ConfigBasePath, es: seq<DirEntry>): Result<seq<ConfigRecord>, LibError>
    decreases |es|
  {
    if es == [] then Ok([])
    else
      match Collect(s, base, es[..|es| - 1])
      case Err(e) => Err(e)
      case Ok(acc) =>
        match EntryStep(s, base, es[|es| - 1])
        case Err(e) => Err(e)
        case Ok(more) => Ok(acc + more)
  }

  /** `ConfigFile::list_configs` over a directory whose iterator yields `es`. */
  function ListSpec(s: FsState, base: ConfigBasePath, es: seq<DirEntry>): (r: Result<seq<ConfigRecord>, LibError>)
    ensures !IsDir(s, Canon(base.path)) ==> r == Err(ConfigsDirectoryNotADirectory(base.path))
  {
    var dir := Canon(base.path);
    if !IsDir(s, dir) then Err(ConfigsDirectoryNotADirectory(base.path))
    else if (ReadDir, dir) in s.faults then Err(IoError(s.faults[(ReadDir, dir)]))
    else Collect(s, base, es)
  }

  /** Whether each entry is kept, position by position. */
  function ReadableFlags(s: FsState, base: ConfigBasePath, es: seq<DirEntry>): (f: seq<bool>)
    ensures |f| == |es|
    ensures forall i :: 0 <= i < |es| ==> f[i] == Readable(s, base, es[i])
  {
    seq(|es|, i requires 0 <= i < |es| => Readable(s, base, es[i]))
  }

  /** The positions holding `true`, in increasing order. */
  function TrueIndices(f: seq<bool>): seq<nat>
    decreases |f|
  {
    if f == [] then []
    else TrueIndices(f[..|f| - 1]) + (if f[|f| - 1] then [|f| - 1] else [])
  }

  lemma {:induction false} TrueIndicesAre(f: seq<bool>)
    ensures forall j :: 0 <= j < |TrueIndices(f)| ==> TrueIndices(f)[j] < |f|
    ensures forall j :: 0 <= j < |TrueIndices(f)| ==> f[TrueIndices(f)[j]]
    ensures forall j, j' :: 0 <= j < j' < |TrueIndices(f)| ==> TrueIndices(f)[j] < TrueIndices(f)[j']
    ensures forall i :: 0 <= i < |f| && f[i] ==> i in TrueIndices(f)
    decreases |f|
  {
    if f != [] {
      var last := |f| - 1;
      var init := f[..last];
      TrueIndicesAre(init);
      var ix0 := TrueIndices(init);
      var ix := TrueIndices(f);
      assert ix == ix0 + (if f[last] then [last] else []);
      forall j | 0 <= j < |ix| ensures ix[j] < |f| {
        if j < |ix0| {
          assert ix[j] == ix0[j];
        }
      }
      forall j | 0 <= j < |ix| ensures f[ix[j]] {
        if j < |ix0| {
          assert ix[j] == ix0[j] && init[ix0[j]] == f[ix0[j]];
        }
      }
      forall j, j' | 0 <= j < j' < |ix| ensures ix[j] < ix[j'] {
        if j' < |ix0| {
          assert ix[j] == ix0[j] && ix[j'] == ix0[j'];
        } else {
          assert ix[j] == ix0[j] && ix0[j] < |init| && ix[j'] == last;
        }
      }
      forall i | 0 <= i < |f| && f[i] ensures i in ix {
        if i < last {
          assert init[i];
          assert i in ix0;
        } else {
          assert ix[|ix| - 1] == i;
        }
      }
    }
  }

  /** The positions of the kept entries, in iteration order. */
  function ReadableIndices(s: FsState, base: ConfigBasePath, es: seq<DirEntry>): seq<nat> {
    TrueIndices(ReadableFlags(s, base, es))
  }

  /** Dropping the last entry drops at most its own position. */
  lemma ReadableIndicesStep(s: FsState, base: ConfigBasePath, es: seq<DirEntry>)
    requires es != []
    ensures ReadableIndices(s, base, es)
            == ReadableIndices(s, base, es[..|es| - 1])
               + (if Readable(s, base, es[|es| - 1]) then [|es| - 1] else [])
  {
    assert ReadableFlags(s, base, es)[..|es| - 1] == ReadableFlags(s, base, es[..|es| - 1]);
  }

  lemma ReadableIndicesAre(s: FsState, base: ConfigBasePath, es: seq<DirEntry>)
    ensures var ix := ReadableIndices(s, base, es);
            && (forall j :: 0 <= j < |ix| ==> ix[j] < |es|)
            && (forall j :: 0 <= j < |ix| ==> Readable(s, base, es[ix[j]]))
            && (forall j, j' :: 0 <= j < j' < |ix| ==> ix[j] < ix[j'])
            && (forall i :: 0 <= i < |es| && Readable(s, base, es[i]) ==> i in ix)
  {
    TrueIndicesAre(ReadableFlags(s, base, es));
  }

  /** A listing that does not abort holds, in iteration order, exactly the
      profiles of the regular-file entries that read successfully. */
  lemma {:induction false} CollectKeepsReadable(s: FsState, base: ConfigBasePath, es: seq<DirEntry>)
    requires Collect(s, base, es).Ok?
    ensures var rs := Collect(s, base, es).value;
            var ix := ReadableIndices(s, base, es);
            && |rs| == |ix|
            && forall j :: 0 <= j < |rs| ==> ix[j] < |es| && Readable(s, base, es[ix[j]])
                                              && rs[j] == ReadConfig(s, es[ix[j]].fileName, base).value
    decreases |es|
  {
    if es != [] {
      var init := es[..|es| - 1];
      CollectKeepsReadable(s, base, init);
      ReadableIndicesAre(s, base, init);
      ReadableIndicesStep(s, base, es);
      forall i | 0 <= i < |init| ensures init[i] == es[i] { }
    }
  }

  /** The listing aborts exactly when some entry is an iterator error or a
      regular file with a non-UTF-8 name, and then with the first such entry's error. */
  lemma {:induction false} CollectAbortsAtFirst(s: FsState, base: ConfigBasePath, es: seq<DirEntry>)
    ensures Collect(s, base, es).Err? <==> exists i :: 0 <= i < |es| && Aborts(s, base, es[i])
    ensures Collect(s, base, es).Err? ==>
              exists i :: 0 <= i < |es| && Aborts(s, base, es[i])
                          && (forall j :: 0 <= j < i ==> !Aborts(s, base, es[j]))
                          && Collect(s, base, es).error == EntryStep(s, base, es[i]).error
    decreases |es|
  {
    if es != [] {
      var init := es[..|es| - 1];
      CollectAbortsAtFirst(s, base, init);
      forall i | 0 <= i < |init| ensures init[i] == es[i] { }
    }
  }

  /** `read_dir` of the base directory yields each entry directly inside it
      exactly once, under its plain file name, between whatever iterator
      errors it reports. */
  predicate DirEntries(s: FsState, base: ConfigBasePath, es: seq<DirEntry>) {
    var dir := Canon(base.path);
    && (forall i :: 0 <= i < |es| && es[i].Entry? ==>
          PlainName(es[i].fileName) && dir + [es[i].fileName] in s.nodes)
    && (forall i, j :: 0 <= i < j < |es| && es[i].Entry? && es[j].Entry? ==>
          es[i].fileName != es[j].fileName)
    && (forall k :: k in s.nodes && |k| == |dir| + 1 && k[..|dir|] == dir ==>
          exists i :: 0 <= i < |es| && es[i].Entry? && es[i].fileName == k[|dir|])
  }

  /** The entry of a regular file directly inside the base directory, in a
      listing that does not abort, is kept exactly when its profile reads. */
  lemma ChildEntryReadable(s: FsState, base: ConfigBasePath, es: seq<DirEntry>, n: string) returns (i: nat)
    requires DirEntries(s, base, es) && Collect(s, base, es).Ok?
    requires PlainName(n) && IsFile(s, Canon(base.path) + [n]) && ReadConfig(s, n, base).Ok?
    ensures i < |es| && es[i].Entry? && es[i].fileName == n && Readable(s, base, es[i])
  {
    var dir := Canon(base.path);
    var k := dir + [n];
    assert k[..|dir|] == dir && k[|dir|] == n;
    i :| 0 <= i < |es| && es[i].Entry? && es[i].fileName == k[|dir|];
    ChildPath(base.path, n);
    assert IsFileEntry(s, base, es[i]);
    CollectAbortsAtFirst(s, base, es);
  }

  /** Over the entries of the base directory, a listing that succeeds holds
      the record of every regular file directly inside it that reads as a
      profile. */
  lemma ListCoversDirectory(s: FsState, base: ConfigBasePath, es: seq<DirEntry>, n: string)
    requires DirEntries(s, base, es) && ListSpec(s, base, es).Ok?
    requires PlainName(n) && IsFile(s, Canon(base.path) + [n]) && ReadConfig(s, n, base).Ok?
    ensures ReadConfig(s, n, base).value in ListSpec(s, base, es).value
  {
    var i := ChildEntryReadable(s, base, es, n);
    ReadableIndicesAre(s, base, es);
    CollectKeepsReadable(s, base, es);
    var ix := ReadableIndices(s, base, es);
    var j :| 0 <= j < |ix| && ix[j] == i;
    assert ListSpec(s, base, es).value[j] == ReadConfig(s, n, base).value;
  }

  /** Over the entries of the base directory, no file is listed twice. */
  lemma ListOncePerFile(s: FsState, base: ConfigBasePath, es: seq<DirEntry>)
    requires DirEntries(s, base, es)
    ensures forall j :: 0 <= j < |ReadableIndices(s, base, es)| ==>
              ReadableIndices(s, base, es)[j] < |es| && es[ReadableIndices(s, base, es)[j]].Entry?
    ensures var ix := ReadableIndices(s, base, es);
            forall j, j' :: 0 <= j < j' < |ix| ==> es[ix[j]].fileName != es[ix[j']].fileName
  {
    ReadableIndicesAre(s, base, es);
  }

  lemma CollectStep(s: FsState, base: ConfigBasePath, es: seq<DirEntry>, i: nat)
    requires i < |es| && Collect(s, base, es[..i]).Ok?
    ensures Collect(s, base, es[..i + 1])
            == if EntryStep(s, base, es[i]).Err? then Err(EntryStep(s, base, es[i]).error)
               else Ok(Collect(s, base, es[..i]).value + EntryStep(s, base, es[i]).value)
    ensures EntryStep(s, base, es[i]) == Ok([]) ==> Collect(s, base, es[..i + 1]) == Collect(s, base, es[..i])
  {
    assert es[..i + 1][..i] == es[..i];
    assert es[..i + 1][i] == es[i];
    assert Collect(s, base, es[..i]).value + [] == Collect(s, base, es[..i]).value;
  }

  lemma {:induction false} CollectErrPersists(s: FsState, base: ConfigBasePath, es: seq<DirEntry>, i: nat)
    requires i <= |es| && Collect(s, base, es[..i]).Err?
    ensures Collect(s, base, es) == Collect(s, base, es[..i])
    decreases |es| - i
  {
    if i < |es| {
      assert es[..i + 1][..i] == es[..i];
      CollectErrPersists(s, base, es, i + 1);
    } else {
      assert es[..i] == es;
    }
  }

  /** The loop of `list_configs`: pushes each readable profile in turn, skips
      what is not a regular file or does not read, and stops at an iterator
      error or a non-UTF-8 file name. */
  method ListConfigs(fs: FileSystem, base: ConfigBasePath, entries: seq<DirEntry>)
    returns (r: Result<seq<ConfigRecord>, LibError>)
    ensures r == ListSpec(fs.state, base, entries)
  {
    var configDir := Canon(base.path);
    if IsDir(fs.state, configDir) {
      var result: seq<ConfigRecord> := [];
      if (ReadDir, configDir) in fs.state.faults {
        return Err(IoError(fs.state.faults[(ReadDir, configDir)]));
      }
      for i := 0 to |entries|
        invariant Collect(fs.state, base, entries[..i]) == Ok(result)
      {
        CollectStep(fs.state, base, entries, i);
        match entries[i]
        case EntryError(kind) =>
          CollectErrPersists(fs.state, base, entries, i + 1);
          return Err(IoError(kind));
        case Entry(fileName, utf8) =>
          var path := Push(base.path, fileName);
          if IsFile(fs.state, Canon(path)) {
            if !utf8 {
              CollectErrPersists(fs.state, base, entries, i + 1);
              return Err(FilenameError);
            }
            var read := ReadConfig(fs.state, fileName, base);
            if read.Ok? {
              result := result + [read.value];
            }
          }
      }
      assert entries[..|entries|] == entries;
      return Ok(result);
    }
    return Err(ConfigsDirectoryNotADirectory(base.path));
  }

  /** A directory holding one valid profile and one file of other content
      lists as exactly the valid profile. */
  lemma ListOneValidOneCorrupt(s: FsState, base: ConfigBasePath, good: string, bad: string, c: ConfigRecord)
    requires IsDir(s, Canon(base.path)) && (ReadDir, Canon(base.path)) !in s.faults
    requires PlainName(good) && PlainName(bad)
    requires IsFile(s, ProfileKey(good, base)) && s.nodes[ProfileKey(good, base)].content == Encode(c)
    requires IsFile(s, ProfileKey(bad, base)) && Decode(s.nodes[ProfileKey(bad, base)].content).None?
    requires forall op :: (op, ProfileKey(good, base)) !in s.faults
    ensures ListSpec(s, base, [Entry(good, true), Entry(bad, true)]) == Ok([c])
  {
    RoundTrip(c);
    var k := ProfileKey(good, base);
    assert (Open, k) !in s.faults && (Read, k) !in s.faults;
    assert ReadConfig(s, good, base) == Ok(c);
    var es := [Entry(good, true), Entry(bad, true)];
    assert es[..0] == [];
    CollectStep(s, base, es, 0);
    assert Collect(s, base, es[..0]) == Ok([]);
    assert EntryStep(s, base, es[0]) == Ok([c]);
    assert [] + [c] == [c];
    assert Collect(s, base, es[..1]) == Ok([c]);
    CollectStep(s, base, es, 1);
    assert EntryStep(s, base, es[1]) == Ok([]);
    assert [c] + [] == [c];
    assert es[..2] == es;
  }

  /** Steps 1 to 4 of `save_config`: create the base directory, restrict it
      to its owner, create or truncate the profile's file, restrict it to its
      owner. */
  function SavePrefix(s: FsState, base: ConfigBasePath, c: ConfigRecord): (out: (Result<(), LibError>, FsState))
    ensures out.0.Err? ==> out.0.error.IoError?
    ensures out.1.faults == s.faults
  {
    var dir := Canon(base.path);
    var file := ProfileKey(c.name, base);
    var (r1, s1) := MkDirAll(s, dir);
    if r1.Err? then (Err(IoError(r1.error)), s1) else
    var (r2, s2) := SetMode(s1, dir, DirModeOwnerOnly);
    if r2.Err? then (Err(IoError(r2.error)), s2) else
    var (r3, s3) := CreateTruncate(s2, file);
    if r3.Err? then (Err(IoError(r3.error)), s3) else
    var (r4, s4) := SetMode(s3, file, FileModeOwnerOnly);
    if r4.Err? then (Err(IoError(r4.error)), s4) else (Ok(()), s4)
  }

  /** `save_config`, with step 5 reporting a failed write of the encoded
      profile as a `JsonError`. */
  function SaveOutcome(s: FsState, base: ConfigBasePath, c: ConfigRecord): (out: (Result<(), LibError>, FsState))
    ensures out.0.Err? ==> out.0.error.IoError? || out.0.error.JsonError?
    ensures out.1.faults == s.faults
  {
    var (r, s4) := SavePrefix(s, base, c);
    if r.Err? then (r, s4) else
    var (r5, s5) := WriteAll(s4, ProfileKey(c.name, base), Encode(c));
    if r5.Err? then (Err(JsonError(JsonIo(r5.error))), s5) else (Ok(()), s5)
  }

  /** `save_config` as written: the profile is written into a `BufWriter`
      that `serde_json::to_writer` drops without flushing, and drop ignores
      the error of its final flush. A profile that fits the buffer therefore
      reaches the file only at drop, and a failure there is lost. */
  function SaveOutcomeAsWritten(s: FsState, base: ConfigBasePath, c: ConfigRecord): (out: (Result<(), LibError>, FsState))
  {
    var (r, s4) := SavePrefix(s, base, c);
    if r.Err? then (r, s4) else
    var (r5, s5) := WriteAll(s4, ProfileKey(c.name, base), Encode(c));
    (Ok(()), s5)
  }

  /** After a successful save the base directory is owner-only (0700), the
      profile's file is a regular file, owner-only (0600), holding the
      encoded profile, and no other pre-existing entry changed. */
  lemma SaveSucceeds(s: FsState, base: ConfigBasePath, c: ConfigRecord)
    requires SaveOutcome(s, base, c).0.Ok?
    ensures var t := SaveOutcome(s, base, c).1;
            var dir := Canon(base.path);
            var file := ProfileKey(c.name, base);
            && file != dir
            && IsDir(t, dir) && (dir != [] ==> t.nodes[dir].mode == DirModeOwnerOnly)
            && IsFile(t, file) && t.nodes[file].mode == FileModeOwnerOnly
            && t.nodes[file].content == Encode(c)
            && (forall p :: p in s.nodes && p != dir && p != file ==> p in t.nodes && t.nodes[p] == s.nodes[p])
  {
    var dir := Canon(base.path);
    var file := ProfileKey(c.name, base);
    var (r1, s1) := MkDirAll(s, dir);
    var (r2, s2) := SetMode(s1, dir, DirModeOwnerOnly);
    var (r3, s3) := CreateTruncate(s2, file);
    var (r4, s4) := SetMode(s3, file, FileModeOwnerOnly);
    assert IsDir(s1, dir);
    assert IsDir(s2, dir);
    assert file != dir;
  }

  /** Reading a profile back after saving it yields the saved profile. */
  lemma SaveThenRead(s: FsState, base: ConfigBasePath, c: ConfigRecord)
    requires SaveOutcome(s, base, c).0.Ok?
    requires (Open, ProfileKey(c.name, base)) !in s.faults && (Read, ProfileKey(c.name, base)) !in s.faults
    ensures ReadConfig(SaveOutcome(s, base, c).1, c.name, base) == Ok(c)
  {
    SaveSucceeds(s, base, c);
    RoundTrip(c);
  }

  /** The steps run in order and the first failure ends the save: what each
      failure leaves behind. */
  lemma SaveStopsAtFirstFailure(s: FsState, base: ConfigBasePath, c: ConfigRecord)
    ensures var dir := Canon(base.path);
            var file := ProfileKey(c.name, base);
            var out := SaveOutcome(s, base, c);
            var (r1, s1) := MkDirAll(s, dir);
            var (r2, s2) := SetMode(s1, dir, DirModeOwnerOnly);
            var (r3, s3) := CreateTruncate(s2, file);
            var (r4, s4) := SetMode(s3, file, FileModeOwnerOnly);
            && (r1.Err? ==> out == (Err(IoError(r1.error)), s))
            && (r1.Ok? && r2.Err? ==> out == (Err(IoError(r2.error)), s1))
            && (r1.Ok? && r2.Ok? && r3.Err? ==> out == (Err(IoError(r3.error)), s2))
            && (r1.Ok? && r2.Ok? && r3.Ok? && r4.Err? ==>
                  out == (Err(IoError(r4.error)), s3) && IsFile(out.1, file) && out.1.nodes[file].content == [])
            && (r1.Ok? && r2.Ok? && r3.Ok? && r4.Ok? && (Write, file) in s.faults ==>
                  out.0 == Err(JsonError(JsonIo(s.faults[(Write, file)])))
                  && IsFile(out.1, file) && out.1.nodes[file].content == []
                  && out.1.nodes[file].mode == FileModeOwnerOnly)
  {
  }

  /** The lost write error: on a full disk the save as written reports
      success, but the profile's file is left empty and no longer reads. */
  lemma AsWrittenHidesWriteFailure(base: ConfigBasePath, c: ConfigRecord)
    requires PlainName(c.name)
    ensures var s := FsState(map[], map[(Write, ProfileKey(c.name, base)) := NoSpace]);
            && SaveOutcomeAsWritten(s, base, c).0 == Ok(())
            && ReadConfig(SaveOutcomeAsWritten(s, base, c).1, c.name, base) == Err(JsonError(Malformed))
            && SaveOutcome(s, base, c).0 == Err(JsonError(JsonIo(NoSpace)))
  {
    var s := FsState(map[], map[(Write, ProfileKey(c.name, base)) := NoSpace]);
    var dir := Canon(base.path);
    var file := ProfileKey(c.name, base);
    assert file == dir + [c.name];
    var (r1, s1) := MkDirAll(s, dir);
    assert !UnderFile(s, dir) && !IsFile(s, dir);
    assert r1.Ok? && IsDir(s1, dir);
    var (r2, s2) := SetMode(s1, dir, DirModeOwnerOnly);
    assert r2.Ok? && IsDir(s2, dir);
    assert file[..|file| - 1] == dir;
    assert !IsDir(s2, file) by {
      assert file !in s1.nodes by {
        assert forall p :: p in s1.nodes ==> p in Ancestors(dir);
        assert forall p :: p in Ancestors(dir) ==> |p| <= |dir|;
      }
    }
    var (r3, s3) := CreateTruncate(s2, file);
    assert r3.Ok?;
    EmptyIsMalformed();
  }

  /** `ConfigFile::save_config`: the five filesystem steps in order; the
      first failing step's error is returned and no later step runs. */
  method SaveConfig(config: ConfigFile, base: ConfigBasePath, fs: FileSystem) returns (r: Result<(), LibError>)
    modifies fs
    ensures (r, fs.state) == SaveOutcome(old(fs.state), base, config.Record())
  {
    var configDir := base.path;
    var made := fs.CreateDirAll(configDir);
    if made.Err? {
      return Err(IoError(made.error));
    }
    var dirMode := fs.SetPermissions(configDir, DirModeOwnerOnly);
    if dirMode.Err? {
      return Err(IoError(dirMode.error));
    }
    var file := Push(configDir, config.name);
    var created := fs.Create(file);
    if created.Err? {
      return Err(IoError(created.error));
    }
    var fileMode := fs.SetPermissions(file, FileModeOwnerOnly);
    if fileMode.Err? {
      return Err(IoError(fileMode.error));
    }
    var written := fs.Write(file, Encode(config.Record()));
    if written.Err? {
      return Err(JsonError(JsonIo(written.error)));
    }
    return Ok(());
  }
}

/** The part of the operating system's filesystem the profile store touches:
    entries keyed by their resolved path, each a directory or a regular file
    with a permission mode and content, plus the failures the system imposes
    on particular operations (a permission it denies, a full disk). */
module FileSystem {
  import opened Wrappers
  import opened Errors
  import opened Paths
  import opened Serde

  type Key = seq<string>

  datatype Kind = Directory | RegularFile

  datatype Node = Node(kind: Kind, mode: nat, content: seq<Tok>)

  datatype FsOp = MkDir | Chmod | Create | Write | Open | Read | ReadDir

  datatype FsState = FsState(nodes: map<Key, Node>, faults: map<(FsOp, Key), IoKind>)

  /** 0o700 */
  const DirModeOwnerOnly: nat := 448
  /** 0o600 */
  const FileModeOwnerOnly: nat := 384
  /** 0o755: what `mkdir` creates under the usual umask 0o022. */
  const NewDirMode: nat := 493
  /** 0o644: what `File::create` creates under the usual umask 0o022. */
  const NewFileMode: nat := 420

  /** The root always exists and is a directory. */
  predicate IsDir(s: FsState, k: Key) {
    k == [] || (k in s.nodes && s.nodes[k].kind == Directory)
  }

  predicate IsFile(s: FsState, k: Key) {
    k != [] && k in s.nodes && s.nodes[k].kind == RegularFile
  }

  predicate Exists(s: FsState, k: Key) {
    IsDir(s, k) || k in s.nodes
  }

  /** Some proper ancestor of `k` is a regular file. */
  predicate UnderFile(s: FsState, k: Key) {
    exists i :: 0 <= i < |k| && IsFile(s, k[..i])
  }

  function Ancestors(k: Key): set<Key> {
    set i | 1 <= i <= |k| :: k[..i]
  }

  /** `create_dir_all`: every missing directory on the way to `k` is created;
      existing entries are left as they are. */
  function MkDirAll(s: FsState, k: Key): (out: (Result<(), IoKind>, FsState))
    ensures out.0.Ok? ==> IsDir(out.1, k)
    ensures out.1.faults == s.faults
    ensures forall p :: p in s.nodes ==> p in out.1.nodes && out.1.nodes[p] == s.nodes[p]
    ensures out.0.Err? ==> out.1 == s
  {
    if (MkDir, k) in s.faults then (Err(s.faults[(MkDir, k)]), s)
    else if UnderFile(s, k) then (Err(NotADirectory), s)
    else if IsFile(s, k) then (Err(AlreadyExists), s)
    else
      var added := map p | p in s.nodes.Keys + Ancestors(k) ::
                     if p in s.nodes then s.nodes[p] else Node(Directory, NewDirMode, []);
      assert k[..|k|] == k;
      assert k != [] ==> k in Ancestors(k);
      assert k != [] ==> k in added && added[k].kind == Directory;
      (Ok(()), s.(nodes := added))
  }

  /** `set_permissions`. */
  function SetMode(s: FsState, k: Key, mode: nat): (out: (Result<(), IoKind>, FsState))
    ensures out.0.Ok? && k != [] ==> k in s.nodes && k in out.1.nodes
                                     && out.1.nodes[k] == s.nodes[k].(mode := mode)
    ensures out.1.faults == s.faults
    ensures forall p :: p in s.nodes && p != k ==> p in out.1.nodes && out.1.nodes[p] == s.nodes[p]
    ensures out.1.nodes.Keys == s.nodes.Keys
    ensures out.0.Err? ==> out.1 == s
  {
    if (Chmod, k) in s.faults then (Err(s.faults[(Chmod, k)]), s)
    else if k == [] then (Ok(()), s)
    else if k !in s.nodes then (Err(NotFound), s)
    else (Ok(()), s.(nodes := s.nodes[k := s.nodes[k].(mode := mode)]))
  }

  /** `File::create`: create the file, or truncate it keeping its mode. */
  function CreateTruncate(s: FsState, k: Key): (out: (Result<(), IoKind>, FsState))
    ensures out.0.Ok? ==> IsFile(out.1, k) && out.1.nodes[k].content == []
    ensures out.0.Ok? ==> out.1.nodes[k].mode == if k in s.nodes then s.nodes[k].mode else NewFileMode
    ensures out.0.Ok? ==> !IsDir(s, k)
    ensures out.1.faults == s.faults
    ensures forall p :: p in s.nodes && p != k ==> p in out.1.nodes && out.1.nodes[p] == s.nodes[p]
    ensures out.1.nodes.Keys <= s.nodes.Keys + {k}
    ensures out.0.Err? ==> out.1 == s
  {
    if (Create, k) in s.faults then (Err(s.faults[(Create, k)]), s)
    else if IsDir(s, k) then (Err(IsADirectory), s)
    else if IsFile(s, k[..|k| - 1]) || UnderFile(s, k[..|k| - 1]) then (Err(NotADirectory), s)
    else if !IsDir(s, k[..|k| - 1]) then (Err(NotFound), s)
    else
      var mode := if k in s.nodes then s.nodes[k].mode else NewFileMode;
      (Ok(()), s.(nodes := s.nodes[k := Node(RegularFile, mode, [])]))
  }

  /** Writing the whole content through an open handle on `k`. */
  function WriteAll(s: FsState, k: Key, content: seq<Tok>): (out: (Result<(), IoKind>, FsState))
    ensures out.0.Ok? && k in s.nodes ==> k in out.1.nodes && out.1.nodes[k] == s.nodes[k].(content := content)
    ensures out.1.faults == s.faults
    ensures forall p :: p in s.nodes && p != k ==> p in out.1.nodes && out.1.nodes[p] == s.nodes[p]
    ensures out.1.nodes.Keys == s.nodes.Keys
    ensures out.0.Err? ==> out.1 == s
  {
    if (Write, k) in s.faults then (Err(s.faults[(Write, k)]), s)
    else if k !in s.nodes then (Ok(()), s)
    else (Ok(()), s.(nodes := s.nodes[k := s.nodes[k].(content := content)]))
  }

  /** `File::open` for reading. Opening a directory succeeds on Unix. */
  function OpenFile(s: FsState, k: Key): (r: Result<(), IoKind>)
    ensures r.Ok? <==> (Open, k) !in s.faults && Exists(s, k)
  {
    if (Open, k) in s.faults then Err(s.faults[(Open, k)])
    else if !Exists(s, k) then Err(NotFound)
    else Ok(())
  }

  /** Reading everything from an opened `k`. */
  function ReadAll(s: FsState, k: Key): (r: Result<seq<Tok>, IoKind>)
    ensures r.Ok? <==> (Read, k) !in s.faults && IsFile(s, k)
    ensures r.Ok? ==> r.value == s.nodes[k].content
  {
    if (Read, k) in s.faults then Err(s.faults[(Read, k)])
    else if IsDir(s, k) then Err(IsADirectory)
    else if k !in s.nodes then Err(NotFound)
    else Ok(s.nodes[k].content)
  }

  /** The filesystem as the running program sees it: one shared, mutable
      state that each system call moves forward. */
  class FileSystem {
    var state: FsState

    constructor (initial: FsState)
      ensures state == initial
    {
      state := initial;
    }

    method CreateDirAll(p: Path) returns (r: Result<(), IoKind>)
      modifies this
      ensures (r, state) == MkDirAll(old(state), Canon(p))
    {
      var out := MkDirAll(state, Canon(p));
      r, state := out.0, out.1;
    }

    method SetPermissions(p: Path, mode: nat) returns (r: Result<(), IoKind>)
      modifies this
      ensures (r, state) == SetMode(old(state), Canon(p), mode)
    {
      var out := SetMode(state, Canon(p), mode);
      r, state := out.0, out.1;
    }

    method Create(p: Path) returns (r: Result<(), IoKind>)
      modifies this
      ensures (r, state) == CreateTruncate(old(state), Canon(p))
    {
      var out := CreateTruncate(state, Canon(p));
      r, state := out.0, out.1;
    }

    method Write(p: Path, content: seq<Tok>) returns (r: Result<(), IoKind>)
      modifies this
      ensures (r, state) == WriteAll(old(state), Canon(p), content)
    {
      var out := WriteAll(state, Canon(p), content);
      r, state := out.0, out.1;
    }
  }
}

/** Paths as the program builds them (`PathBuf::push` on strings) and as the
    operating system resolves them (components, with `.`, `..` and repeated
    separators folded away). */
module Paths {

  type Path = string

  /** `PathBuf::push` on Unix: an absolute `name` replaces the path; otherwise
      `name` is appended, with a separator unless the path is empty or
      already ends in one. */
  function Push(base: Path, name: string): Path {
    if |name| > 0 && name[0] == '/' then name
    else if |base| > 0 && base[|base| - 1] != '/' then base + "/" + name
    else base + name
  }

  /** The pieces of `p` between separators, in order. */
  function Split(p: string): (parts: seq<string>)
    ensures |parts| > 0
    decreases |p|
  {
    if p == [] then [""]
    else
      var init := Split(p[..|p| - 1]);
      var c := p[|p| - 1];
      if c == '/' then init + [""]
      else init[..|init| - 1] + [init[|init| - 1] + [c]]
  }

  /** Lexical resolution of the pieces: empty pieces and `.` name the current
      directory, `..` its parent. */
  function Resolve(parts: seq<string>): seq<string>
    decreases |parts|
  {
    if parts == [] then []
    else
      var dirs := Resolve(parts[..|parts| - 1]);
      var last := parts[|parts| - 1];
      if last == "" || last == "." then dirs
      else if last == ".." then (if dirs == [] then [] else dirs[..|dirs| - 1])
      else dirs + [last]
  }

  /** The entry a path names, as a list of directory names from the root. */
  function Canon(p: Path): seq<string> {
    Resolve(Split(p))
  }

  /** A file name that names an entry directly inside a directory. */
  predicate PlainName(n: string) {
    n != "" && n != "." && n != ".." && '/' !in n
  }

  lemma {:induction false} SplitAppend(p: string, n: string)
    requires '/' !in n
    ensures var k := |Split(p)| - 1;
            Split(p + n) == Split(p)[..k] + [Split(p)[k] + n]
    decreases |n|
  {
    var k := |Split(p)| - 1;
    if n == [] {
      assert p + n == p;
      assert Split(p)[k] + n == Split(p)[k];
      assert Split(p)[..k] + [Split(p)[k]] == Split(p);
    } else {
      var m := n[..|n| - 1];
      var c := n[|n| - 1];
      assert c in n;
      SplitAppend(p, m);
      assert (p + n)[..|p + n| - 1] == p + m;
      assert (p + n)[|p + n| - 1] == c;
      var init := Split(p + m);
      assert init[..|init| - 1] == Split(p)[..k];
      assert init[|init| - 1] + [c] == Split(p)[k] + n;
    }
  }

  lemma ResolvePlain(parts: seq<string>, n: string)
    requires PlainName(n)
    ensures Resolve(parts + [n]) == Resolve(parts) + [n]
  {
    assert (parts + [n])[..|parts + [n]| - 1] == parts;
  }

  lemma ChildPathWithSeparator(base: Path, n: string)
    requires PlainName(n) && |base| > 0 && base[|base| - 1] != '/'
    ensures Canon(base + "/" + n) == Canon(base) + [n]
  {
    var parts := Split(base);
    var b := base + "/";
    assert b[..|b| - 1] == base;
    assert Split(b) == parts + [""];
    assert base + "/" + n == b + n;
    SplitAppend(b, n);
    assert Split(b)[..|parts|] == parts;
    assert Split(b)[|parts|] + n == n;
    assert Split(b + n) == parts + [n];
    ResolvePlain(parts, n);
  }

  lemma ChildPathAfterSeparator(base: Path, n: string)
    requires PlainName(n) && |base| > 0 && base[|base| - 1] == '/'
    ensures Canon(base + n) == Canon(base) + [n]
  {
    var parts := Split(base);
    var k := |parts| - 1;
    SplitAppend(base, n);
    assert base[..|base| - 1] + "/" == base;
    assert parts == Split(base[..|base| - 1]) + [""];
    assert parts[k] == "";
    assert parts[..k] + [""] == parts;
    assert Resolve(parts) == Resolve(parts[..k]);
    assert parts[k] + n == n;
    assert Split(base + n) == parts[..k] + [n];
    ResolvePlain(parts[..k], n);
  }

  /** `config_file(name)` for a plain profile name is the entry `name`
      directly inside the base directory, however the base path is spelled. */
  lemma ChildPath(base: Path, n: string)
    requires PlainName(n)
    ensures Canon(Push(base, n)) == Canon(base) + [n]
  {
    if |base| > 0 && base[|base| - 1] != '/' {
      ChildPathWithSeparator(base, n);
    } else if base == [] {
      assert Push(base, n) == n;
      SplitAppend(base, n);
      assert "" + n == n;
      assert Split(n) == [n];
      assert Resolve([n]) == Resolve([]) + [n];
    } else {
      ChildPathAfterSeparator(base, n);
    }
  }
}

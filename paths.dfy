/** Runtime-directory validation and the derivation of the socket and lock paths. */
module Paths {
  import opened Errors
  import opened Options

  /** A Unix path, as the text the program handles. */
  type Path = string

  /** `Path::is_absolute` on Unix: the path starts at the root. */
  predicate IsAbsolute(p: Path) {
    |p| > 0 && p[0] == '/'
  }

  /**
   * `dir.join(name)` on Unix: an absolute `name` replaces `dir`; otherwise a
   * separator is inserted unless `dir` is empty or already ends with one.
   */
  function Join(dir: Path, name: string): Path {
    if IsAbsolute(name) then name else JoinPrefix(dir) + name
  }

  /** The text `Join(dir, name)` puts in front of a relative `name`. */
  function JoinPrefix(dir: Path): Path {
    if dir == [] || dir[|dir| - 1] == '/' then dir else dir + "/"
  }

  /**
   * What `Join` makes of its arguments: an absolute name as it is; a relative
   * name after `dir` and, unless `dir` is empty, a separator. A path under an
   * absolute directory is absolute.
   */
  lemma JoinShape(dir: Path, name: string)
    ensures IsAbsolute(name) ==> Join(dir, name) == name
    ensures !IsAbsolute(name) ==>
              && dir <= Join(dir, name)
              && JoinPrefix(dir) <= Join(dir, name)
              && Join(dir, name)[|JoinPrefix(dir)|..] == name
    ensures !IsAbsolute(name) && dir != [] ==> Join(dir, name)[|JoinPrefix(dir)| - 1] == '/'
    ensures IsAbsolute(dir) ==> IsAbsolute(Join(dir, name))
  {
  }

  /** The suffix that turns a socket name into its lock-file name. */
  const LockSuffix: string := ".lock"

  /** `build_paths`: the pair (bind_path, lock_path) for `name` inside `dir`. */
  function BuildPaths(dir: Path, name: string): (r: (Path, Path))
    ensures r.0 == Join(dir, name) && r.1 == Join(dir, name + LockSuffix)
    ensures r.1 == r.0 + LockSuffix
    ensures r.0 != r.1
  {
    (Join(dir, name), Join(dir, name + LockSuffix))
  }

  /**
   * `xdg_runtime_dir`, with the environment variable passed in: `None` stands
   * for a variable that is unset or not valid Unicode.
   */
  function XdgRuntimeDir(env: Option<string>): (r: Result<Path>)
    ensures r.Err? <==> env.None? || !IsAbsolute(env.value)
    ensures r.Err? ==> r.error == RuntimeDirInvalid
    ensures r.Ok? ==> env == Some(r.value) && IsAbsolute(r.value)
  {
    match env
    case None => Err(RuntimeDirInvalid)
    case Some(dir) => if !IsAbsolute(dir) then Err(RuntimeDirInvalid) else Ok(dir)
  }

  /** Two relative names give the same path in one directory only if they are equal. */
  lemma JoinInjective(dir: Path, a: string, b: string)
    requires !IsAbsolute(a) && !IsAbsolute(b)
    ensures Join(dir, a) == Join(dir, b) <==> a == b
  {
    if Join(dir, a) == Join(dir, b) {
      var p := JoinPrefix(dir);
      assert p + a == p + b;
      assert a == (p + a)[|p|..];
      assert b == (p + b)[|p|..];
    }
  }

  /** Appending the lock suffix keeps a relative name relative. */
  lemma LockNameRelative(name: string)
    requires !IsAbsolute(name)
    ensures !IsAbsolute(name + LockSuffix)
  {
    if name == [] {
      assert name + LockSuffix == LockSuffix;
    } else {
      assert (name + LockSuffix)[0] == name[0];
    }
  }

  /**
   * In one directory the socket path of `m` is the lock path of `n` exactly
   * when `m` is `n` followed by ".lock": only such a name can collide with
   * another name's lock file.
   */
  lemma BindPathIsLockPath(dir: Path, m: string, n: string)
    requires !IsAbsolute(m) && !IsAbsolute(n)
    ensures BuildPaths(dir, m).0 == BuildPaths(dir, n).1 <==> m == n + LockSuffix
  {
    LockNameRelative(n);
    JoinInjective(dir, m, n + LockSuffix);
  }

  /** Distinct relative names have distinct socket paths and distinct lock paths. */
  lemma DistinctNamesDistinctPaths(dir: Path, a: string, b: string)
    requires !IsAbsolute(a) && !IsAbsolute(b) && a != b
    ensures BuildPaths(dir, a).0 != BuildPaths(dir, b).0
    ensures BuildPaths(dir, a).1 != BuildPaths(dir, b).1
  {
    JoinInjective(dir, a, b);
    LockNameRelative(a);
    LockNameRelative(b);
    assert (a + LockSuffix)[..|a|] == a && (b + LockSuffix)[..|b|] == b;
    JoinInjective(dir, a + LockSuffix, b + LockSuffix);
  }
}

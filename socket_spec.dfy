/**
 * What `WaylandSocket`'s constructors and its `Drop` do to the abstract
 * filesystem, written as functions from the state before to the state after
 * the call and the value returned. The class `Socket.Filesystem` runs the same
 * operations step by step and is proved to agree with these functions.
 */
module SocketSpec {
  import opened Errors
  import opened Options
  import opened Paths
  import opened Os
  import opened Candidates

  /**
   * A bound Wayland socket: its name, its two paths, the listener and the
   * lock-file descriptor it owns.
   */
  datatype WaylandSocket = WaylandSocket(name: string, bindPath: Path, lockPath: Path, listener: Handle, lock: Handle) {
    /** `WaylandSocket::name` */
    function Name(): (r: string)
      ensures r == name
    {
      name
    }
  }

  /** The state after an operation and what it returned. */
  datatype Outcome<+T> = Outcome(state: State, result: Result<T>)

  /** The socket still owns its lock and its listener. */
  predicate Live(s: State, sock: WaylandSocket) {
    && sock.lockPath in s.locks && s.locks[sock.lockPath] == sock.lock
    && sock.listener in s.listeners && s.listeners[sock.listener] == sock.bindPath
  }

  /**
   * The socket is live, its lock path is its socket path with ".lock"
   * appended, as `build_paths` makes it, and a socket file is still there
   * for clients to connect to.
   */
  predicate Reachable(s: State, sock: WaylandSocket) {
    && Live(s, sock)
    && sock.lockPath == sock.bindPath + LockSuffix
    && sock.bindPath in s.sockets
  }

  /**
   * `lock_file`: open or create the lock file, then try the non-blocking
   * exclusive lock; a descriptor that did not get the lock is closed again.
   */
  function LockFile(s: State, path: Path): (r: Outcome<Handle>)
    ensures r.result.Err? ==> r.result.error == LockOpen || r.result.error == LockAcquire
    ensures r.result.Ok? ==>
              && r.result.value == s.next && path !in s.locks
              && path in r.state.locks && r.state.locks[path] == r.result.value
  {
    var fd := s.next;
    var s1 := AfterOpen(s, path);
    if !OpenOk(s, path) then Outcome(s1, Err(LockOpen))
    else
      var s2 := AfterFlock(s1, path, fd);
      if FlockOk(s1, path) then Outcome(s2, Ok(fd))
      else Outcome(AfterClose(s2, fd), Err(LockAcquire))
  }

  /**
   * `with_name_in_dir`: derive the paths, take the lock, remove a leftover
   * socket file (ignoring failure), bind. When the bind fails the lock
   * descriptor is closed, which releases the lock.
   */
  function WithNameInDir(s: State, dir: Path, name: string): (r: Outcome<WaylandSocket>)
    ensures r.result.Err? ==> r.result.error in {LockOpen, LockAcquire, Bind}
    ensures r.result.Ok? ==>
              && r.result.value.name == name
              && (r.result.value.bindPath, r.result.value.lockPath) == BuildPaths(dir, name)
              && Reachable(r.state, r.result.value)
              && r.result.value.lock >= s.next && r.result.value.listener >= s.next
    ensures r.state.next >= s.next && r.state.refused == s.refused
  {
    var (bindPath, lockPath) := BuildPaths(dir, name);
    var l := LockFile(s, lockPath);
    if l.result.Err? then Outcome(l.state, Err(l.result.error))
    else
      var fd := l.result.value;
      var s1 := AfterUnlink(l.state, bindPath);
      var s2 := AfterBind(s1, bindPath);
      if BindOk(s1, bindPath) then Outcome(s2, Ok(WaylandSocket(name, bindPath, lockPath, s1.next, fd)))
      else Outcome(AfterClose(s2, fd), Err(Bind))
  }

  /**
   * `with_candidates_in_dir`: try the names in order; contention moves on to
   * the next name, any other error or a success ends the search.
   */
  function WithCandidatesInDir(s: State, dir: Path, candidates: seq<string>): (r: Outcome<WaylandSocket>)
    ensures r.result.Err? ==> r.result.error in {NoAvailableSocket, LockOpen, Bind}
    ensures r.result.Ok? ==>
              && r.result.value.name in candidates
              && (r.result.value.bindPath, r.result.value.lockPath) == BuildPaths(dir, r.result.value.name)
              && Reachable(r.state, r.result.value)
              && r.result.value.lock >= s.next && r.result.value.listener >= s.next
    ensures r.state.next >= s.next && r.state.refused == s.refused
    decreases |candidates|
  {
    if candidates == [] then Outcome(s, Err(NoAvailableSocket))
    else
      var o := WithNameInDir(s, dir, candidates[0]);
      if o.result == Err(LockAcquire) then WithCandidatesInDir(o.state, dir, candidates[1..])
      else o
  }

  /** `with_candidates`, with the value of `XDG_RUNTIME_DIR` passed in. */
  function WithCandidates(s: State, env: Option<string>, candidates: seq<string>): (r: Outcome<WaylandSocket>)
    ensures XdgRuntimeDir(env).Err? ==> r == Outcome(s, Err(RuntimeDirInvalid))
    ensures r.result.Ok? ==> r.result.value.name in candidates
  {
    match XdgRuntimeDir(env)
    case Err(e) => Outcome(s, Err(e))
    case Ok(dir) => WithCandidatesInDir(s, dir, candidates)
  }

  /** `with_name`, with the value of `XDG_RUNTIME_DIR` passed in. */
  function WithName(s: State, env: Option<string>, name: string): (r: Outcome<WaylandSocket>)
    ensures XdgRuntimeDir(env).Err? ==> r == Outcome(s, Err(RuntimeDirInvalid))
    ensures r.result.Ok? ==> r.result.value.name == name
  {
    match XdgRuntimeDir(env)
    case Err(e) => Outcome(s, Err(e))
    case Ok(dir) => WithNameInDir(s, dir, name)
  }

  /** `auto`: the candidates `wayland-1` to `wayland-31` under `XDG_RUNTIME_DIR`. */
  function Auto(s: State, env: Option<string>): (r: Outcome<WaylandSocket>)
    ensures XdgRuntimeDir(env).Err? ==> r == Outcome(s, Err(RuntimeDirInvalid))
    ensures r.result.Ok? ==> r.result.value.name in AutoCandidates()
  {
    WithCandidates(s, env, AutoCandidates())
  }

  /**
   * `Drop for WaylandSocket`: unlink the socket file and the lock file,
   * ignoring failures; then the fields are dropped, closing the listener and
   * the lock descriptor.
   */
  function Drop(s: State, sock: WaylandSocket): (r: State)
    ensures sock.listener !in r.listeners
    ensures Live(s, sock) ==> sock.lockPath !in r.locks
  {
    var s1 := AfterUnlink(s, sock.bindPath);
    var s2 := AfterUnlink(s1, sock.lockPath);
    AfterClose(AfterClose(s2, sock.listener), sock.lock)
  }
}

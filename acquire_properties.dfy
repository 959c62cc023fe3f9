/** What one acquisition of a name (`with_name_in_dir`) does, case by case. */
module AcquireProperties {
  import opened Errors
  import opened Paths
  import opened Os
  import opened SocketSpec

  /**
   * The system calls one acquisition makes, in order: open the lock file;
   * if that worked, flock it; only if the lock was taken, unlink the socket
   * path and bind it.
   */
  lemma AcquisitionCalls(s: State, dir: Path, name: string)
    ensures var (b, l) := BuildPaths(dir, name);
            var o := WithNameInDir(s, dir, name);
            && |s.trace| <= |o.state.trace| && o.state.trace[..|s.trace|] == s.trace
            && var ev := o.state.trace[|s.trace|..];
            && (o.result == Err(LockOpen) ==> ev == [Event(OpenAt(l), false)])
            && (o.result == Err(LockAcquire) ==> ev == [Event(OpenAt(l), true), Event(Flock(l), false)])
            && (o.result.Ok? || o.result == Err(Bind) ==>
                  && |ev| == 4
                  && ev[0] == Event(OpenAt(l), true) && ev[1] == Event(Flock(l), true)
                  && ev[2].call == Unlink(b) && ev[3] == Event(BindAt(b), o.result.Ok?))
  {
  }

  /**
   * The socket path is unlinked only once the lock is held: every unlink of
   * it follows a successful flock of the lock file in the same call, and a
   * call that fails to open or lock the lock file unlinks nothing.
   */
  lemma UnlinkOnlyAfterLock(s: State, dir: Path, name: string)
    ensures var (b, l) := BuildPaths(dir, name);
            var o := WithNameInDir(s, dir, name);
            && |s.trace| <= |o.state.trace|
            && (forall i :: |s.trace| <= i < |o.state.trace| && o.state.trace[i].call == Unlink(b) ==>
                  exists j :: |s.trace| <= j < i && o.state.trace[j] == Event(Flock(l), true))
            && (o.result == Err(LockOpen) || o.result == Err(LockAcquire) ==>
                  forall i :: |s.trace| <= i < |o.state.trace| ==> !o.state.trace[i].call.Unlink?)
  {
    var (b, l) := BuildPaths(dir, name);
    var o := WithNameInDir(s, dir, name);
    AcquisitionCalls(s, dir, name);
    var n := |s.trace|;
    assert forall i :: n <= i < |o.state.trace| ==> o.state.trace[i] == o.state.trace[n..][i - n];
    if o.result.Ok? || o.result == Err(Bind) {
      assert o.state.trace[n + 1] == Event(Flock(l), true);
    }
  }

  /**
   * Opening the lock file fails exactly when a socket file sits at the lock
   * path or the system refuses the open; then nothing but the trace changes.
   */
  lemma LockOpenChangesNothing(s: State, dir: Path, name: string)
    ensures var (b, l) := BuildPaths(dir, name);
            var o := WithNameInDir(s, dir, name);
            && (o.result == Err(LockOpen) <==> l in s.sockets || OpenAt(l) in s.refused)
            && (o.result == Err(LockOpen) ==>
                  o.state == s.(trace := o.state.trace))
  {
  }

  /**
   * Contention: the lock file opens but the lock is held by someone or the
   * flock is refused. Only the lock file may have been created; the socket
   * file, the locks and the listeners are untouched.
   */
  lemma ContentionCreatesOnlyLockFile(s: State, dir: Path, name: string)
    requires Valid(s)
    ensures var (b, l) := BuildPaths(dir, name);
            var o := WithNameInDir(s, dir, name);
            && (o.result == Err(LockAcquire) <==> OpenOk(s, l) && (l in s.locks || Flock(l) in s.refused))
            && (o.result == Err(LockAcquire) ==>
                  && o.state.files == s.files + {l}
                  && (b in o.state.files <==> b in s.files)
                  && o.state.sockets == s.sockets
                  && o.state.locks == s.locks
                  && o.state.listeners == s.listeners)
  {
    var (b, l) := BuildPaths(dir, name);
    if OpenOk(s, l) && (l in s.locks || Flock(l) in s.refused) {
      CloseFreshLock(AfterFlock(AfterOpen(s, l), l, s.next), s.next);
    }
  }

  /** Closing a description that holds no lock and is no listener changes nothing. */
  lemma CloseFreshLock(s: State, h: Handle)
    requires forall p :: p in s.locks ==> s.locks[p] != h
    requires h !in s.listeners
    ensures AfterClose(s, h) == s
  {
    assert Released(s.locks, h) == s.locks;
  }

  /**
   * A failed bind: the lock was taken and the stale socket file possibly
   * removed, then the lock descriptor was closed. No lock taken by this call
   * is left, no listener was added, and the lock file stays in place. When
   * `bind(2)` itself worked and only `listen` failed, a socket file without
   * a listener is left at the socket path.
   */
  lemma BindFailureReleasesLock(s: State, dir: Path, name: string)
    requires Valid(s)
    ensures var (b, l) := BuildPaths(dir, name);
            var o := WithNameInDir(s, dir, name);
            && (o.result == Err(Bind) <==>
                  && OpenOk(s, l) && l !in s.locks && Flock(l) !in s.refused
                  && ((b in s.files && Unlink(b) in s.refused) || BindAt(b) in s.refused || Listen(b) in s.refused))
            && (o.result == Err(Bind) ==>
                  && l in o.state.files && l !in o.state.locks
                  && var unlinked := b in s.files && Unlink(b) !in s.refused;
                  && var created := !(b in s.files && Unlink(b) in s.refused) && BindAt(b) !in s.refused;
                  && o.state.files == (if unlinked then s.files - {b} else s.files) + {l} + (if created then {b} else {})
                  && o.state.sockets == (if unlinked then s.sockets - {b} else s.sockets) + (if created then {b} else {})
                  && o.state.locks == (if unlinked then s.locks - {b} else s.locks)
                  && o.state.listeners == s.listeners
                  && o.state.next == s.next + 1)
  {
    var (b, l) := BuildPaths(dir, name);
    var o := WithNameInDir(s, dir, name);
    if o.result == Err(Bind) {
      var s1 := AfterUnlink(AfterFlock(AfterOpen(s, l), l, s.next), b);
      var s2 := AfterBind(s1, b);
      assert o.state == AfterClose(s2, s.next);
      var unlinked := b in s.files && Unlink(b) !in s.refused;
      var kept := if unlinked then s.locks - {b} else s.locks;
      assert s2.locks == kept[l := s.next];
      assert Released(s2.locks, s.next) == kept;
    }
  }

  /**
   * Success: the lock file opens, nobody holds its lock, and the socket path
   * is free once a leftover file is unlinked. The socket is named `name`,
   * has the derived paths, holds the lock and a new listener; the lock file
   * and the socket file exist, and nothing else changed except that an
   * unlinked leftover may have been another path's locked file.
   */
  lemma SuccessOwnsName(s: State, dir: Path, name: string)
    requires Valid(s)
    ensures var (b, l) := BuildPaths(dir, name);
            var o := WithNameInDir(s, dir, name);
            && (o.result.Ok? <==>
                  && OpenOk(s, l) && l !in s.locks && Flock(l) !in s.refused
                  && (b !in s.files || Unlink(b) !in s.refused) && BindAt(b) !in s.refused && Listen(b) !in s.refused)
            && (o.result.Ok? ==>
                  && o.result.value == WaylandSocket(name, b, l, s.next + 1, s.next)
                  && o.result.value.Name() == name
                  && Live(o.state, o.result.value)
                  && o.state.files == s.files + {l, b}
                  && o.state.sockets == s.sockets + {b}
                  && o.state.locks == (s.locks - {b})[l := s.next]
                  && o.state.listeners == s.listeners[s.next + 1 := b]
                  && o.state.next == s.next + 2)
  {
  }

  /**
   * A leftover socket file at the socket path, with nobody holding the lock,
   * does not stop the acquisition: it is unlinked and the bind succeeds.
   */
  lemma StaleSocketReplaced(s: State, dir: Path, name: string)
    requires Valid(s)
    requires Free(s, dir, name) && Permitted(s, dir, name)
    ensures WithNameInDir(s, dir, name).result.Ok?
  {
    SuccessOwnsName(s, dir, name);
  }

  /** Nobody holds the lock of `name`, and no socket file sits at its lock path. */
  predicate Free(s: State, dir: Path, name: string) {
    var l := BuildPaths(dir, name).1;
    l !in s.locks && l !in s.sockets
  }

  /** The system refuses none of the calls an acquisition of `name` makes. */
  predicate Permitted(s: State, dir: Path, name: string) {
    var (b, l) := BuildPaths(dir, name);
    && OpenAt(l) !in s.refused && Flock(l) !in s.refused
    && Unlink(b) !in s.refused && BindAt(b) !in s.refused && Listen(b) !in s.refused
  }

  /** An acquisition keeps the state well formed. */
  lemma AcquisitionKeepsValid(s: State, dir: Path, name: string)
    requires Valid(s)
    ensures Valid(WithNameInDir(s, dir, name).state)
    ensures WithNameInDir(s, dir, name).state.next >= s.next
    ensures WithNameInDir(s, dir, name).state.refused == s.refused
  {
    var o := WithNameInDir(s, dir, name);
    if o.result == Err(LockAcquire) {
      ContentionCreatesOnlyLockFile(s, dir, name);
    } else if o.result == Err(Bind) {
      BindFailureReleasesLock(s, dir, name);
    } else if o.result.Ok? {
      SuccessOwnsName(s, dir, name);
    }
  }

  /**
   * Paths other than the two of this name keep their file and their lock,
   * and every listener that was open stays open.
   */
  lemma AcquisitionFrame(s: State, dir: Path, name: string, p: Path)
    requires Valid(s)
    requires p != BuildPaths(dir, name).0 && p != BuildPaths(dir, name).1
    ensures var o := WithNameInDir(s, dir, name);
            && (p in o.state.files <==> p in s.files)
            && (p in o.state.sockets <==> p in s.sockets)
            && (p in o.state.locks <==> p in s.locks)
            && (p in s.locks ==> o.state.locks[p] == s.locks[p])
            && (forall h :: h in s.listeners ==> h in o.state.listeners && o.state.listeners[h] == s.listeners[h])
  {
    var o := WithNameInDir(s, dir, name);
    if o.result == Err(LockAcquire) {
      ContentionCreatesOnlyLockFile(s, dir, name);
    } else if o.result == Err(Bind) {
      BindFailureReleasesLock(s, dir, name);
    } else if o.result.Ok? {
      SuccessOwnsName(s, dir, name);
    }
  }

  /**
   * Mutual exclusion: while anyone holds the lock on the name's lock file,
   * acquiring the name fails with `LockAcquire` (or `LockOpen` when the file
   * cannot be opened), and the locks and listeners stay as they were.
   */
  lemma HeldLockExcludes(s: State, dir: Path, name: string)
    requires Valid(s)
    requires BuildPaths(dir, name).1 in s.locks
    ensures var o := WithNameInDir(s, dir, name);
            && o.result == (if OpenAt(BuildPaths(dir, name).1) in s.refused then Err(LockOpen) else Err(LockAcquire))
            && o.state.locks == s.locks && o.state.listeners == s.listeners
            && o.state.files == s.files && o.state.sockets == s.sockets
  {
    ContentionCreatesOnlyLockFile(s, dir, name);
  }

  /**
   * While a socket is alive, a second acquisition of its name in its
   * directory fails and leaves the socket alive, its socket file included.
   */
  lemma LiveSocketExcludes(s: State, sock: WaylandSocket, dir: Path)
    requires Valid(s) && Live(s, sock)
    requires (sock.bindPath, sock.lockPath) == BuildPaths(dir, sock.name)
    ensures var o := WithNameInDir(s, dir, sock.name);
            && (o.result == Err(LockAcquire) || o.result == Err(LockOpen))
            && Live(o.state, sock)
            && (Reachable(s, sock) ==> Reachable(o.state, sock))
  {
    HeldLockExcludes(s, dir, sock.name);
  }

  /** An acquisition removes no file, socket or not, except possibly a leftover at its own socket path. */
  lemma AcquisitionUnlinksOnlySocketPath(s: State, dir: Path, name: string)
    requires Valid(s)
    ensures s.files - {BuildPaths(dir, name).0} <= WithNameInDir(s, dir, name).state.files
    ensures s.sockets - {BuildPaths(dir, name).0} <= WithNameInDir(s, dir, name).state.sockets
  {
    var o := WithNameInDir(s, dir, name);
    if o.result == Err(LockAcquire) {
      ContentionCreatesOnlyLockFile(s, dir, name);
    } else if o.result == Err(Bind) {
      BindFailureReleasesLock(s, dir, name);
    } else if o.result.Ok? {
      SuccessOwnsName(s, dir, name);
    }
  }

  /**
   * Acquiring any name whose socket path is not a live socket's lock file
   * leaves that socket alive, and a socket whose file was there keeps it.
   */
  lemma AcquisitionKeepsOthersLive(s: State, sock: WaylandSocket, dir: Path, name: string)
    requires Valid(s) && Live(s, sock)
    requires BuildPaths(dir, name).0 != sock.lockPath
    ensures Live(WithNameInDir(s, dir, name).state, sock)
    ensures Reachable(s, sock) ==> Reachable(WithNameInDir(s, dir, name).state, sock)
  {
    var (b, l) := BuildPaths(dir, name);
    if l == sock.lockPath {
      HeldLockExcludes(s, dir, name);
    } else {
      AcquisitionFrame(s, dir, name, sock.lockPath);
      if Reachable(s, sock) {
        assert b != sock.bindPath;
        AcquisitionUnlinksOnlySocketPath(s, dir, name);
      }
    }
  }

  /**
   * The flip side: acquiring `n + ".lock"` next to a live socket named `n`
   * unlinks that socket's lock file as a "leftover" socket file, so the
   * socket no longer holds the lock of its name.
   */
  lemma LockSuffixNameUnlinksLockFile(s: State, sock: WaylandSocket, dir: Path)
    requires Valid(s) && Live(s, sock)
    requires !IsAbsolute(sock.name) && sock.lockPath == BuildPaths(dir, sock.name).1
    requires var l := BuildPaths(dir, sock.name + LockSuffix).1;
             && l !in s.locks && OpenOk(s, l) && Flock(l) !in s.refused
             && Unlink(sock.lockPath) !in s.refused
    ensures !Live(WithNameInDir(s, dir, sock.name + LockSuffix).state, sock)
  {
    var m := sock.name + LockSuffix;
    LockNameRelative(sock.name);
    BindPathIsLockPath(dir, m, sock.name);
    var o := WithNameInDir(s, dir, m);
    if o.result == Err(Bind) {
      BindFailureReleasesLock(s, dir, m);
    } else {
      SuccessOwnsName(s, dir, m);
    }
  }
}

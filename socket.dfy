/**
 * The operations of `src/server/socket.rs` as methods on an abstract
 * filesystem object. The system calls are its primitive methods; the
 * constructors of `WaylandSocket` and its `Drop` call them one after another,
 * as the source does, and each is proved to end in the state and result that
 * `SocketSpec` gives.
 */
module Socket {
  import opened Errors
  import opened Options
  import opened Paths
  import Os
  import Candidates
  import SocketSpec

  class Filesystem {
    var files: set<Path>
    var sockets: set<Path>
    var locks: map<Path, Os.Handle>
    var listeners: map<Os.Handle, Path>
    var next: Os.Handle
    const refused: set<Os.Call>
    var trace: seq<Os.Event>

    /** The current state, as the value the specification functions work on. */
    function Snapshot(): Os.State
      reads this
    {
      Os.State(files, sockets, locks, listeners, next, refused, trace)
    }

    /** A filesystem with the given files, lock holders and listeners, and no calls made yet. */
    constructor (files: set<Path>, sockets: set<Path>, locks: map<Path, Os.Handle>, listeners: map<Os.Handle, Path>,
                 next: Os.Handle, refused: set<Os.Call>)
      ensures Snapshot() == Os.State(files, sockets, locks, listeners, next, refused, [])
    {
      this.files := files;
      this.sockets := sockets;
      this.locks := locks;
      this.listeners := listeners;
      this.next := next;
      this.refused := refused;
      this.trace := [];
    }

    /** `openat(CWD, path, CREATE | WRONLY, RUSR | WUSR)` */
    method OpenAt(path: Path) returns (fd: Option<Os.Handle>)
      modifies this
      ensures Snapshot() == Os.AfterOpen(old(Snapshot()), path)
      ensures fd == if Os.OpenOk(old(Snapshot()), path) then Some(old(next)) else None
    {
      if path in sockets || Os.OpenAt(path) in refused {
        fd := None;
        trace := trace + [Os.Event(Os.OpenAt(path), false)];
      } else {
        files := files + {path};
        fd := Some(next);
        next := next + 1;
        trace := trace + [Os.Event(Os.OpenAt(path), true)];
      }
    }

    /** `flock(fd, NonBlockingLockExclusive)` on the file `fd` was opened on. */
    method Flock(fd: Os.Handle, path: Path) returns (ok: bool)
      modifies this
      ensures Snapshot() == Os.AfterFlock(old(Snapshot()), path, fd)
      ensures ok == Os.FlockOk(old(Snapshot()), path)
    {
      ok := path !in locks && Os.Flock(path) !in refused;
      if ok {
        locks := locks[path := fd];
      }
      trace := trace + [Os.Event(Os.Flock(path), ok)];
    }

    /** `unlink(path)` */
    method Unlink(path: Path) returns (ok: bool)
      modifies this
      ensures Snapshot() == Os.AfterUnlink(old(Snapshot()), path)
      ensures ok == Os.UnlinkOk(old(Snapshot()), path)
    {
      ok := path in files && Os.Unlink(path) !in refused;
      if ok {
        files := files - {path};
        sockets := sockets - {path};
        locks := locks - {path};
      }
      trace := trace + [Os.Event(Os.Unlink(path), ok)];
    }

    /** `UnixListener::bind(path)`: `bind(2)`, then `listen`. */
    method BindListener(path: Path) returns (listener: Option<Os.Handle>)
      modifies this
      ensures Snapshot() == Os.AfterBind(old(Snapshot()), path)
      ensures listener == if Os.BindOk(old(Snapshot()), path) then Some(old(next)) else None
    {
      if path in files || Os.BindAt(path) in refused {
        listener := None;
        trace := trace + [Os.Event(Os.BindAt(path), false)];
        return;
      }
      files := files + {path};
      sockets := sockets + {path};
      if Os.Listen(path) in refused {
        listener := None;
        trace := trace + [Os.Event(Os.BindAt(path), false)];
      } else {
        listeners := listeners[next := path];
        listener := Some(next);
        next := next + 1;
        trace := trace + [Os.Event(Os.BindAt(path), true)];
      }
    }

    /** Dropping an `OwnedFd` or a listener closes its description. */
    method Close(h: Os.Handle)
      modifies this
      ensures Snapshot() == Os.AfterClose(old(Snapshot()), h)
    {
      locks := Os.Released(locks, h);
      listeners := listeners - {h};
    }

    /** `lock_file` */
    method LockFile(path: Path) returns (r: Result<Os.Handle>)
      modifies this
      ensures SocketSpec.Outcome(Snapshot(), r) == SocketSpec.LockFile(old(Snapshot()), path)
    {
      var fd := OpenAt(path);
      if fd.None? {
        return Err(LockOpen);
      }
      var locked := Flock(fd.value, path);
      if !locked {
        Close(fd.value);
        return Err(LockAcquire);
      }
      return Ok(fd.value);
    }

    /** `WaylandSocket::with_name_in_dir` */
    method WithNameInDir(dir: Path, name: string) returns (r: Result<SocketSpec.WaylandSocket>)
      modifies this
      ensures SocketSpec.Outcome(Snapshot(), r) == SocketSpec.WithNameInDir(old(Snapshot()), dir, name)
    {
      var paths := BuildPaths(dir, name);
      var bindPath, lockPath := paths.0, paths.1;
      var lock := LockFile(lockPath);
      if lock.Err? {
        return Err(lock.error);
      }
      var unlinked := Unlink(bindPath);
      var listener := BindListener(bindPath);
      if listener.None? {
        Close(lock.value);
        return Err(Bind);
      }
      return Ok(SocketSpec.WaylandSocket(name, bindPath, lockPath, listener.value, lock.value));
    }

    /** `WaylandSocket::with_candidates_in_dir` */
    method WithCandidatesInDir(dir: Path, candidates: seq<string>) returns (r: Result<SocketSpec.WaylandSocket>)
      modifies this
      ensures SocketSpec.Outcome(Snapshot(), r) == SocketSpec.WithCandidatesInDir(old(Snapshot()), dir, candidates)
    {
      var i := 0;
      while i < |candidates|
        invariant 0 <= i <= |candidates|
        invariant SocketSpec.WithCandidatesInDir(old(Snapshot()), dir, candidates)
               == SocketSpec.WithCandidatesInDir(Snapshot(), dir, candidates[i..])
      {
        var attempt := WithNameInDir(dir, candidates[i]);
        match attempt
        case Ok(socket) =>
          return Ok(socket);
        case Err(LockAcquire) =>
          assert candidates[i..][1..] == candidates[i + 1..];
          i := i + 1;
        case Err(err) =>
          return Err(err);
      }
      return Err(NoAvailableSocket);
    }

    /** `WaylandSocket::with_candidates`, with the value of `XDG_RUNTIME_DIR` passed in. */
    method WithCandidates(env: Option<string>, candidates: seq<string>) returns (r: Result<SocketSpec.WaylandSocket>)
      modifies this
      ensures SocketSpec.Outcome(Snapshot(), r) == SocketSpec.WithCandidates(old(Snapshot()), env, candidates)
    {
      var dir := XdgRuntimeDir(env);
      if dir.Err? {
        return Err(dir.error);
      }
      r := WithCandidatesInDir(dir.value, candidates);
    }

    /** `WaylandSocket::with_name`, with the value of `XDG_RUNTIME_DIR` passed in. */
    method WithName(env: Option<string>, name: string) returns (r: Result<SocketSpec.WaylandSocket>)
      modifies this
      ensures SocketSpec.Outcome(Snapshot(), r) == SocketSpec.WithName(old(Snapshot()), env, name)
    {
      var dir := XdgRuntimeDir(env);
      if dir.Err? {
        return Err(dir.error);
      }
      r := WithNameInDir(dir.value, name);
    }

    /** `WaylandSocket::auto`, with the value of `XDG_RUNTIME_DIR` passed in. */
    method Auto(env: Option<string>) returns (r: Result<SocketSpec.WaylandSocket>)
      modifies this
      ensures SocketSpec.Outcome(Snapshot(), r) == SocketSpec.Auto(old(Snapshot()), env)
    {
      r := WithCandidates(env, Candidates.AutoCandidates());
    }

    /** `Drop for WaylandSocket`, followed by dropping its listener and its lock descriptor. */
    method Drop(socket: SocketSpec.WaylandSocket)
      modifies this
      ensures Snapshot() == SocketSpec.Drop(old(Snapshot()), socket)
    {
      var socketRemoved := Unlink(socket.bindPath);
      var lockRemoved := Unlink(socket.lockPath);
      Close(socket.listener);
      Close(socket.lock);
    }
  }
}

/**
 * An abstract filesystem and lock table for the four system calls the socket
 * code makes (`openat`, `flock`, `unlink`, `bind`) and for closing a
 * descriptor. Each step is a function from the state before the call to the
 * state after it.
 *
 * Which calls the operating system refuses for reasons other than lock
 * contention (permissions, a missing directory, no lock resources) is the
 * arbitrary set `refused`; everything proved holds for every such set. A held
 * lock always makes `flock` fail, whatever `refused` says.
 */
module Os {
  import opened Paths

  /** An open file description: a lock-file descriptor or a listening socket. */
  type Handle = nat

  /** A system call and the path it is made on. */
  datatype Call = OpenAt(path: Path) | Flock(path: Path) | Unlink(path: Path) | BindAt(path: Path) | Listen(path: Path)

  /** A call that was made, and whether it succeeded. */
  datatype Event = Event(call: Call, ok: bool)

  /**
   * `files`: the paths where a file exists (lock files and socket files).
   * `sockets`: the paths among `files` whose file is a Unix socket; a
   *          stale one left by a process that died is simply one here
   *          without a listener.
   * `locks`: for each path whose file is locked, the description holding the
   *          lock; other processes appear here as holders of their own.
   * `listeners`: the listening sockets that are open, with the path each was bound to.
   * `next`: the next description the system hands out.
   * `trace`: the calls made so far, in order.
   */
  datatype State = State(
    files: set<Path>,
    sockets: set<Path>,
    locks: map<Path, Handle>,
    listeners: map<Handle, Path>,
    next: Handle,
    refused: set<Call>,
    trace: seq<Event>)

  /**
   * A lock is on an existing regular file; a socket is a file; every description in use was handed out
   * already; a description holds at most one lock and is not also a listener.
   */
  predicate Valid(s: State) {
    && s.locks.Keys <= s.files
    && s.sockets <= s.files
    && (forall p :: p in s.locks ==> p !in s.sockets)
    && (forall p :: p in s.locks ==> s.locks[p] < s.next && s.locks[p] !in s.listeners)
    && (forall h :: h in s.listeners ==> h < s.next)
    && (forall p, q :: p in s.locks && q in s.locks && s.locks[p] == s.locks[q] ==> p == q)
  }

  function Record(s: State, c: Call, ok: bool): State {
    s.(trace := s.trace + [Event(c, ok)])
  }

  /** `open` of a Unix socket file fails (`ENXIO`), whatever `refused` says. */
  predicate OpenOk(s: State, p: Path) {
    p !in s.sockets && OpenAt(p) !in s.refused
  }

  /** `openat` with `O_CREAT`: creates a regular file if it is missing and hands out the description `s.next`. */
  function AfterOpen(s: State, p: Path): State {
    if OpenOk(s, p) then Record(s, OpenAt(p), true).(files := s.files + {p}, next := s.next + 1)
    else Record(s, OpenAt(p), false)
  }

  /** A non-blocking exclusive `flock` fails at once when anyone holds the lock. */
  predicate FlockOk(s: State, p: Path) {
    p !in s.locks && Flock(p) !in s.refused
  }

  function AfterFlock(s: State, p: Path, h: Handle): State {
    if FlockOk(s, p) then Record(s, Flock(p), true).(locks := s.locks[p := h])
    else Record(s, Flock(p), false)
  }

  /** `unlink` fails when the file is missing or the call is refused. */
  predicate UnlinkOk(s: State, p: Path) {
    p in s.files && Unlink(p) !in s.refused
  }

  /**
   * Unlinking a locked file leaves its lock on the unlinked file: the path
   * itself is no longer locked.
   */
  function AfterUnlink(s: State, p: Path): State {
    if UnlinkOk(s, p) then
      Record(s, Unlink(p), true).(files := s.files - {p}, sockets := s.sockets - {p}, locks := s.locks - {p})
    else Record(s, Unlink(p), false)
  }

  /** `bind(2)` of a Unix socket fails when a file already exists at the path. */
  predicate BindCreates(s: State, p: Path) {
    p !in s.files && BindAt(p) !in s.refused
  }

  /** Binding succeeds, and then `listen` succeeds too. */
  predicate BindOk(s: State, p: Path) {
    BindCreates(s, p) && Listen(p) !in s.refused
  }

  /**
   * `UnixListener::bind`: `bind(2)` creates the socket file; when `listen`
   * succeeds too, a listener with description `s.next` is open on it. When
   * only `listen` fails, the socket is closed again and its file stays behind.
   */
  function AfterBind(s: State, p: Path): State {
    if BindOk(s, p) then
      Record(s, BindAt(p), true).(files := s.files + {p}, sockets := s.sockets + {p},
                                 listeners := s.listeners[s.next := p], next := s.next + 1)
    else if BindCreates(s, p) then
      Record(s, BindAt(p), false).(files := s.files + {p}, sockets := s.sockets + {p})
    else Record(s, BindAt(p), false)
  }

  /** The lock table once description `h` is closed. */
  function Released(locks: map<Path, Handle>, h: Handle): (r: map<Path, Handle>)
    ensures r.Keys <= locks.Keys
    ensures forall p :: p in r ==> r[p] == locks[p] && r[p] != h
    ensures forall p :: p in locks && locks[p] != h ==> p in r
  {
    map p | p in locks && locks[p] != h :: locks[p]
  }

  /** Closing a description releases the lock it holds and closes the listener it is. */
  function AfterClose(s: State, h: Handle): State {
    s.(locks := Released(s.locks, h), listeners := s.listeners - {h})
  }
}

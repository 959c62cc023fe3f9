# Wayland server socket: a verified model

This project models `src/server/socket.rs`, the part of the compositor that
creates its Wayland server socket. The file follows the usual discovery
convention: names are tried in `$XDG_RUNTIME_DIR`, and each name `N` is guarded
by a lock file `N.lock`. A process owns a name while it holds a non-blocking
exclusive `flock` on that file. Once it has the lock, it removes a leftover
socket file at `N` and binds a listener there. Dropping the `WaylandSocket`
unlinks both files and closes the lock descriptor.

The operating system is replaced by an abstract filesystem (`Os.State`):

- `files`: the set of paths where a file exists;
- `sockets`: the paths among `files` whose file is a Unix socket, bound
  now or left behind by a process that died;
- `locks`: a map from a locked path to the descriptor holding its lock
  (other processes appear as holders already in the map);
- `listeners`: the open listening sockets and their paths;
- `next`: the next descriptor number the system hands out;
- `trace`: the system calls made so far, in order;
- `refused`: the calls the system refuses for reasons the code cannot
  see (permissions, a missing directory, no lock resources).

`refused` is arbitrary and never changes during a run. The properties below
hold for every choice of it, so they cover every pattern in which a given call
on a given path always fails or always succeeds. The state itself fixes these
outcomes: `flock` fails while someone holds the lock, `unlink` fails on a
missing file, and `bind` fails onto an existing file. A fourth depends on
what kind of file a path holds: opening a Unix socket file fails (`ENXIO` on
Linux), so `lock_file` returns `LockOpen` while a socket file sits at the lock
path. The same path can hold a regular lock file at one point of a run and a
socket file at another. Unlinking a locked file
leaves its lock behind on the unlinked file, so the path itself is no longer
locked. This is how `flock` behaves, since it locks the file and not its name.

The project has three layers:

- `Paths`, `Candidates`: pure functions. `build_paths`, the absolute-path
  check of `xdg_runtime_dir`, and the `wayland-1` … `wayland-31` list of `auto`.
- `Os`, `SocketSpec`: the effect of each system call, and of each
  `WaylandSocket` operation, as functions from the state before the call to
  the state after it and the value returned.
- `Socket.Filesystem`: a class with those state fields. Its primitive
  methods are the system calls. `LockFile`, `WithNameInDir`,
  `WithCandidatesInDir` (a `while` loop with early returns) and `Drop` call
  them one after another in the source's order. Each is proved to end in the
  state and result that `SocketSpec` gives.

The properties are lemmas about `SocketSpec`, in `AcquireProperties` (one
name), `SelectionProperties` (the candidate loop) and `LifecycleProperties`
(teardown, and the two-server scenario). `WaylandSocket::name` is the
datatype member `SocketSpec.WaylandSocket.Name`. `SuccessOwnsName` states
what it returns.

Two behaviours of the code that are easy to misread:

- `lock_file` maps every `flock` failure to `LockAcquire`, not only
  contention. A `flock` refused for another reason therefore also moves the
  search on to the next candidate. When the lock file did not exist before,
  that lock file is left behind. When every candidate's lock is held by
  someone, `AllHeldLeavesNoArtifacts` guarantees that the search creates no
  new file.
- `Drop` unlinks the socket file and then the lock file. Only afterwards are
  the fields dropped, which closes the listener and then the lock
  descriptor. The model keeps this order.

An edge case follows from `build_paths`: in one directory, the socket path of
a name `n + ".lock"` is the lock path of `n`. Acquiring `n.lock` while a socket
named `n` is alive unlinks that socket's lock file as if it were a leftover
socket (`LockSuffixNameUnlinksLockFile`). Every other acquisition leaves a live
socket alive, its socket file included (`AcquisitionKeepsOthersLive`).
The opposite order fails: while the socket `n.lock` is bound, acquiring `n`
cannot open its lock file and returns `LockOpen` (`SocketFileBlocksLockPath`).
So the two names bind together only when `n` comes first, and then dropping
`n` unlinks the socket file of `n.lock`, which stays bound but can no longer
be reached (`OwnerDropUnlinksSuffixSocket`). No default candidate ends in
`.lock` (`AutoArtifactsDisjoint`).

A socket is `Live` while it holds its lock and its listener. It is
`Reachable` when, in addition, its lock path is its socket path plus `.lock`
and a socket file still exists at its socket path, so clients can connect
to it.

## Model

| member | source | states |
|---|---|---|
| `Errors.Message` | src/server/socket.rs:13-26 | the `SocketError` variants: each message starts with its variant's fixed text, and the four variants that wrap an `io::Error` append `: ` and that error's text |
| `Errors.MessagesDistinct` | src/server/socket.rs:13-26 | different variants never print the same message, whatever their `io::Error` texts |
| `Paths.JoinShape` | src/server/socket.rs:143 | `Path::join`: an absolute name replaces the directory; a relative name follows the directory and a separator; a path under an absolute directory is absolute |
| `Paths.BuildPaths` | src/server/socket.rs:141-144 | bind path is `dir.join(name)`, lock path is `dir.join(name + ".lock")`, which is the bind path with `.lock` appended; the two differ |
| `Paths.XdgRuntimeDir` | src/server/socket.rs:166-177 | `RuntimeDirInvalid` exactly when the variable is unset or not absolute, otherwise the value itself |
| `Paths.JoinInjective` | src/server/socket.rs:143 | two relative names give the same path in one directory if and only if they are equal |
| `Paths.BindPathIsLockPath` | src/server/socket.rs:142-144 | the socket path of `m` is the lock path of `n` if and only if `m` is `n + ".lock"` |
| `Paths.DistinctNamesDistinctPaths` | src/server/socket.rs:142-144 | distinct relative names have distinct socket paths and distinct lock paths |
| `Candidates.NatToString` | src/server/socket.rs:46 | `format!("{i}")` yields a non-empty string of decimal digits without a leading zero |
| `Candidates.NatToStringDecimal` | src/server/socket.rs:46 | the digits `format!("{i}")` yields spell `i` in decimal |
| `Candidates.NatToStringInjective` | src/server/socket.rs:46 | different numbers give different names |
| `Candidates.WaylandName` | src/server/socket.rs:46 | `format!("wayland-{i}")` is `wayland-` followed by decimal digits whose value is `i` |
| `Candidates.AutoCandidates` | src/server/socket.rs:44-47 | 31 candidates, the `i`-th being `wayland-(i+1)`, in increasing order |
| `Candidates.AutoTriesOneToThirtyOne` | src/server/socket.rs:45-46 | `wayland-k` is a candidate if and only if 1 <= k < 32, so `wayland-0` and `wayland-32` are never tried |
| `Candidates.AutoCandidatesDistinct` | src/server/socket.rs:46 | no default name is tried twice |
| `Candidates.AutoCandidateShape` | src/server/socket.rs:46 | a default name is relative and does not end in `.lock` |
| `Candidates.AutoArtifactsDisjoint` | src/server/socket.rs:46 | in one directory the default names' socket and lock files are pairwise distinct, and no socket path is a lock path |
| `SocketSpec.LockFile` | src/server/socket.rs:146-164 | errors are only `LockOpen` or `LockAcquire`; on success the new descriptor holds the lock, which nobody held before |
| `SocketSpec.WithNameInDir` | src/server/socket.rs:87-108 | errors are only `LockOpen`, `LockAcquire`, `Bind`; a socket returned has the given name and derived paths and is live; descriptors are new; `refused` is unchanged |
| `SocketSpec.WithCandidatesInDir` | src/server/socket.rs:66-85 | never `LockAcquire`; errors are `NoAvailableSocket`, `LockOpen`, `Bind`; a socket returned is live, has one of the candidate names and its derived paths |
| `SocketSpec.WithCandidates` | src/server/socket.rs:49-57 | an invalid runtime directory gives `RuntimeDirInvalid` with the state untouched and no system call made |
| `SocketSpec.WithName` | src/server/socket.rs:59-64 | an invalid runtime directory gives `RuntimeDirInvalid` with the state untouched; a socket returned has the given name |
| `SocketSpec.Auto` | src/server/socket.rs:41-47 | an invalid runtime directory gives `RuntimeDirInvalid` untouched; a socket returned has a default name |
| `SocketSpec.Drop` | src/server/socket.rs:134-139 | the listener is closed, and the lock of a live socket is released |
| `SocketSpec.WaylandSocket.Name` | src/server/socket.rs:110-113 | `name` returns the name the socket was created with |
| `Socket.Filesystem.OpenAt` | src/server/socket.rs:151-157 | `openat` with create: unless the path holds a socket file or the open is refused, the file exists afterwards and a new descriptor is returned |
| `Socket.Filesystem.Flock` | src/server/socket.rs:159-161 | the non-blocking exclusive lock succeeds exactly when nobody holds it and it is not refused |
| `Socket.Filesystem.Unlink` | src/server/socket.rs:96 | the file, socket or not, and its path's lock association are removed unless missing or refused |
| `Socket.Filesystem.BindListener` | src/server/socket.rs:99 | `bind(2)` fails on an existing file or a refusal and otherwise creates a socket file; the listener exists exactly when `listen` is not refused as well |
| `Socket.Filesystem.Close` | src/server/socket.rs:30-38 | dropping a descriptor releases the lock it holds and closes the listener it is |
| `Socket.Filesystem.LockFile` | src/server/socket.rs:149-164 | open, then flock, closing the descriptor when the lock is not taken, ends as `SocketSpec.LockFile` says |
| `Socket.Filesystem.WithNameInDir` | src/server/socket.rs:88-108 | lock, unlink, bind, closing the lock on a bind failure, ends as `SocketSpec.WithNameInDir` says |
| `Socket.Filesystem.WithCandidatesInDir` | src/server/socket.rs:67-85 | the loop with `return` and `continue` ends as `SocketSpec.WithCandidatesInDir` says |
| `Socket.Filesystem.WithCandidates` | src/server/socket.rs:52-57 | ends as `SocketSpec.WithCandidates` says |
| `Socket.Filesystem.WithName` | src/server/socket.rs:62-64 | ends as `SocketSpec.WithName` says |
| `Socket.Filesystem.Auto` | src/server/socket.rs:44-47 | ends as `SocketSpec.Auto` says |
| `Socket.Filesystem.Drop` | src/server/socket.rs:134-139 | unlink both files, then close listener and lock, ends as `SocketSpec.Drop` says |
| `AcquireProperties.AcquisitionCalls` | src/server/socket.rs:90-99 | the calls made, in order: open the lock file; flock only if it opened; unlink and bind only if the lock was taken |
| `AcquireProperties.UnlinkOnlyAfterLock` | src/server/socket.rs:92-96 | every unlink of the socket path follows a successful flock of its lock file; `LockOpen` and `LockAcquire` unlink nothing |
| `AcquireProperties.LockOpenChangesNothing` | src/server/socket.rs:151-157 | `LockOpen` exactly when a socket file sits at the lock path or the open is refused, and then only the trace changes |
| `AcquireProperties.ContentionCreatesOnlyLockFile` | src/server/socket.rs:159-161 | `LockAcquire` exactly when the lock file opens and the lock is held or flock is refused; then only the lock file may be new, and the socket file, sockets, locks and listeners are untouched |
| `AcquireProperties.BindFailureReleasesLock` | src/server/socket.rs:99 | the exact condition for `Bind`; then the lock is released, the lock file remains, no listener is added, a leftover socket file may be gone, and a socket file is left when only `listen` failed |
| `AcquireProperties.SuccessOwnsName` | src/server/socket.rs:88-107 | the exact condition for success; the socket has the name, the derived paths, new descriptors, holds the lock and a listener; the whole new state, a socket file at the socket path included |
| `AcquireProperties.StaleSocketReplaced` | src/server/socket.rs:95-99 | a leftover socket file at the socket path does not stop the acquisition when the lock is free and no call is refused |
| `AcquireProperties.AcquisitionKeepsValid` | src/server/socket.rs:88-108 | an acquisition keeps the filesystem well formed |
| `AcquireProperties.AcquisitionFrame` | src/server/socket.rs:88-108 | paths other than the name's two keep their files and locks; open listeners stay open |
| `AcquireProperties.HeldLockExcludes` | src/server/socket.rs:159-161 | while anyone holds the lock, acquisition fails with `LockAcquire` (`LockOpen` if the open is refused) and changes no file, lock or listener |
| `AcquireProperties.LiveSocketExcludes` | src/server/socket.rs:37 | while a socket is alive, acquiring its name again fails and the socket stays alive |
| `AcquireProperties.AcquisitionUnlinksOnlySocketPath` | src/server/socket.rs:95-96 | an acquisition removes no file and no socket file except, possibly, a leftover at its own socket path |
| `AcquireProperties.AcquisitionKeepsOthersLive` | src/server/socket.rs:95-96 | acquiring a name whose socket path is not a live socket's lock file leaves that socket alive, and a reachable socket keeps its socket file |
| `AcquireProperties.LockSuffixNameUnlinksLockFile` | src/server/socket.rs:95-96 | acquiring `n + ".lock"` unlinks the lock file of a live socket `n`, which then no longer holds its name's lock |
| `SelectionProperties.SelectionSemantics` | src/server/socket.rs:71-84 | the loop skips a prefix of contended candidates, then returns the next candidate's outcome unchanged (never `LockAcquire`), or `NoAvailableSocket` when none is left |
| `SelectionProperties.SelectionNeverReportsContention` | src/server/socket.rs:76-77 | the loop never returns `LockAcquire` |
| `SelectionProperties.FirstSuccess` | src/server/socket.rs:71-77 | a socket returned is the first success: for candidate `k`, after every earlier candidate failed with `LockAcquire` |
| `SelectionProperties.AbortStopsSearch` | src/server/socket.rs:79-80 | `LockOpen` or `Bind` is some candidate's own error, and the final state is that attempt's, so no later candidate was tried |
| `SelectionProperties.ExhaustedIffAllContended` | src/server/socket.rs:84 | `NoAvailableSocket` if and only if every candidate (none, when empty) failed with `LockAcquire` |
| `SelectionProperties.AllHeldLeavesNoArtifacts` | src/server/socket.rs:71-84 | when every candidate is locked by someone, the result is `NoAvailableSocket` and no file, lock or listener changed |
| `SelectionProperties.SelectionKeepsValid` | src/server/socket.rs:71-84 | the loop keeps the filesystem well formed |
| `SelectionProperties.SelectionKeepsOthersLive` | src/server/socket.rs:71-84 | a live socket survives a search over names none of which has its lock file as socket path, and a reachable one stays reachable |
| `SelectionProperties.SkipsHeldCandidate` | src/server/socket.rs:71-84 | with `[a, b]` and `a` locked by another holder, the search binds `b` and leaves `a`'s socket path as it was |
| `LifecycleProperties.DropRemovesArtifacts` | src/server/socket.rs:134-139 | dropping releases the lock and closes the listener; each file is gone unless its unlink is refused; nothing else changes |
| `LifecycleProperties.DropKeepsValid` | src/server/socket.rs:134-139 | dropping keeps the filesystem well formed |
| `LifecycleProperties.ReacquireAfterDrop` | src/server/socket.rs:134-139 | after a drop, acquiring the same name succeeds unless a call is refused |
| `LifecycleProperties.DropKeepsOthersLive` | src/server/socket.rs:134-139 | dropping one socket leaves another live socket alive, and reachable when both were reachable |
| `LifecycleProperties.SocketFileBlocksLockPath` | src/server/socket.rs:149-157 | while a reachable socket's file is the lock path of `n`, acquiring `n` fails with `LockOpen`, changes nothing but the trace, and leaves that socket reachable |
| `LifecycleProperties.OwnerDropUnlinksSuffixSocket` | src/server/socket.rs:90-99 | acquiring `n` then `n.lock` both succeed, with `n.lock` bound on `n`'s lock file and `n` no longer holding its lock; dropping `n` then leaves `n.lock` live but unreachable |
| `LifecycleProperties.SuffixAfterOwner` | src/server/socket.rs:90-99 | acquiring `n` then `n.lock` both succeed; `n.lock` is bound on `n`'s lock file and reachable, `n` keeps its listener but no longer holds its lock |
| `LifecycleProperties.DropUnlinksOtherFile` | src/server/socket.rs:136-137 | dropping a socket whose lock path holds another reachable socket's file leaves that socket live but unreachable |
| `LifecycleProperties.FirstCandidateFree` | src/server/socket.rs:71-74 | a free, unrefused first candidate is the one returned |
| `LifecycleProperties.TwoServersShareDirectory` | src/server/socket.rs:66-108 | with `[a, b]` in one directory: the first server binds `a`, the second binds `b`; after the first is dropped, a third binds `a` again while `b` stays reachable |
| `LifecycleProperties.SecondServer` | src/server/socket.rs:71-84 | with `a` owned by a reachable socket and `b` free, a search over `[a, b]` binds `b` and `a`'s socket stays reachable |
| `LifecycleProperties.DropFirstServer` | src/server/socket.rs:134-139 | dropping `a`'s socket frees `a`'s lock and leaves `b`'s socket reachable |
| `LifecycleProperties.ReacquireFirst` | src/server/socket.rs:71-74 | with `a` free, a search over `[a, b]` binds `a` and `b`'s socket stays reachable |
| `LifecycleProperties.ThirdServer` | src/server/socket.rs:66-108 | after `a`'s socket is dropped, a search over `[a, b]` binds `a` again while `b`'s socket stays reachable |

## Left out

- `accept` is not modelled. It is an asynchronous call that changes no state at this layer.
- The `AsRawFd` and `AsFd` impls are not modelled. They only hand out the listener's descriptor.
- Concurrency is not modelled. Each operation is one atomic step, and other processes appear only as lock holders already in the state. The known race is therefore absent: a process that opened the lock file before `Drop` unlinked it could lock the unlinked file afterwards.
- Permission bits and the `O_WRONLY`/`O_CREAT` flags are abstracted into "the open succeeds or is refused". Of the kinds of file, only a Unix socket file is told apart from a regular file.
- `UnixListener::bind` is two steps: `bind(2)` and `listen`. A failure of tokio's registration after `listen` counts as a refused `listen`: in both cases the socket file stays behind without a listener.
- `io::Error` payloads are left out: a result keeps only the variant. `Errors.Message` takes the text of the wrapped `io::Error` as a parameter.
- Failures are fixed per call and path for a whole run, through `refused`. A call that fails once and succeeds when repeated is not modelled, so transient failures are absent. For example, once `Drop` is refused the `unlink` of an existing socket file, that file stays, and every later acquisition of the name that gets the lock fails with `Bind`.
- The environment variable is a parameter. An unset variable and a non-Unicode value are both `None`.
- `Path::join` is modelled for Unix text paths only, and the code normalises nothing.
- The filesystem is keyed by the text of a path, not by the file the kernel resolves it to. Two spellings of one file, such as `/d/a.lock` and `/d//a.lock`, a `.` component, or a directory reached through a symbolic link, are two different files in the model. So `HeldLockExcludes`, `LiveSocketExcludes`, `AcquisitionKeepsOthersLive`, `SelectionKeepsOthersLive`, `SkipsHeldCandidate` and the two-server scenario give mutual exclusion only among processes that spell the runtime directory the same way. The program gets exclusion across spellings from `flock`, because it locks the resolved file; a second `with_name_in_dir` under `/d//` fails there with `LockAcquire`, while the model lets it succeed.
- The candidate iterator is a finite sequence. Laziness is not modelled.
- Socket.Filesystem.Flock: takes the path the descriptor was opened on as an argument, because the model does not keep a table from descriptors to files.

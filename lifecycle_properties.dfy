/** Teardown (`Drop for WaylandSocket`) and the life of a socket from bind to drop. */
module LifecycleProperties {
  import opened Errors
  import opened Paths
  import opened Os
  import opened SocketSpec
  import opened AcquireProperties
  import opened SelectionProperties

  /**
   * Dropping a live socket releases its lock and closes its listener; each
   * of its two files is gone unless the system refused to unlink it.
   * Other paths and other listeners are not touched.
   */
  lemma DropRemovesArtifacts(s: State, sock: WaylandSocket)
    requires Valid(s) && Live(s, sock)
    ensures var t := Drop(s, sock);
            && sock.lockPath !in t.locks
            && t.listeners == s.listeners - {sock.listener}
            && (Unlink(sock.bindPath) !in s.refused ==> sock.bindPath !in t.files)
            && (Unlink(sock.lockPath) !in s.refused ==> sock.lockPath !in t.files)
            && t.sockets <= s.sockets
            && (forall p :: p != sock.bindPath && p != sock.lockPath ==>
                  && (p in t.files <==> p in s.files)
                  && (p in t.sockets <==> p in s.sockets)
                  && (p in t.locks <==> p in s.locks)
                  && (p in t.locks ==> t.locks[p] == s.locks[p]))
            && t.next == s.next && t.refused == s.refused
  {
    var s1 := AfterUnlink(s, sock.bindPath);
    var s2 := AfterUnlink(s1, sock.lockPath);
    var kept := s2.locks;
    assert kept.Keys <= s.locks.Keys && forall q :: q in kept ==> kept[q] == s.locks[q];
    assert forall q :: q != sock.bindPath && q != sock.lockPath ==> (q in kept <==> q in s.locks);
    ReleasedOnly(kept, sock.listener, sock.lockPath);
    assert Released(kept, sock.listener) == kept;
    ReleasedOnly(kept, sock.lock, sock.lockPath);
  }

  /** Closing a description that holds the lock on at most `p` leaves every other lock. */
  lemma ReleasedOnly(locks: map<Path, Handle>, h: Handle, p: Path)
    requires forall q :: q in locks && locks[q] == h ==> q == p
    ensures Released(locks, h) == if p in locks && locks[p] == h then locks - {p} else locks
  {
  }

  /** Dropping a live socket keeps the state well formed. */
  lemma DropKeepsValid(s: State, sock: WaylandSocket)
    requires Valid(s) && Live(s, sock)
    ensures Valid(Drop(s, sock))
  {
    DropRemovesArtifacts(s, sock);
  }

  /**
   * After a socket is dropped its name can be acquired again at once, by
   * this or any other process, unless the system refuses one of the calls.
   */
  lemma ReacquireAfterDrop(s: State, sock: WaylandSocket, dir: Path)
    requires Valid(s) && Live(s, sock)
    requires (sock.bindPath, sock.lockPath) == BuildPaths(dir, sock.name)
    requires Permitted(s, dir, sock.name)
    ensures WithNameInDir(Drop(s, sock), dir, sock.name).result.Ok?
  {
    DropRemovesArtifacts(s, sock);
    StaleSocketReplaced(Drop(s, sock), dir, sock.name);
  }

  /**
   * Dropping one socket leaves another live socket alive, unless the first
   * socket's path is the other's lock file. When both are reachable, the
   * other keeps its socket file too.
   */
  lemma DropKeepsOthersLive(s: State, sock: WaylandSocket, other: WaylandSocket)
    requires Valid(s) && Live(s, sock) && Live(s, other)
    requires other.lock != sock.lock && other.listener != sock.listener
    requires other.lockPath != sock.bindPath
    ensures Live(Drop(s, sock), other)
    ensures Reachable(s, sock) && Reachable(s, other) ==> Reachable(Drop(s, sock), other)
  {
    DropRemovesArtifacts(s, sock);
    assert other.lockPath != sock.lockPath;
    if Reachable(s, sock) && Reachable(s, other) {
      assert other.bindPath != sock.lockPath;
      assert other.bindPath != sock.bindPath;
    }
  }

  /**
   * While a socket's file sits at the lock path of `n` (the socket is named
   * `n.lock`), acquiring `n` cannot open its lock file: it fails with
   * `LockOpen` and changes nothing but the trace.
   */
  lemma SocketFileBlocksLockPath(s: State, other: WaylandSocket, dir: Path, n: string)
    requires Valid(s) && Reachable(s, other)
    requires other.bindPath == BuildPaths(dir, n).1
    ensures var o := WithNameInDir(s, dir, n);
            && o.result == Err(LockOpen)
            && o.state == s.(trace := o.state.trace)
            && Reachable(o.state, other)
  {
    LockOpenChangesNothing(s, dir, n);
  }

  /**
   * The one order in which names `n` and `n.lock` both bind in one
   * directory: `n` first, then `n.lock`. Acquiring `n.lock` unlinks `n`'s
   * lock file as a leftover and binds its socket there, so `n` no longer
   * holds its lock. Dropping `n` afterwards unlinks `n.lock`'s socket file:
   * that socket keeps its lock and listener but can no longer be reached.
   */
  lemma OwnerDropUnlinksSuffixSocket(s: State, dir: Path, n: string)
    requires Valid(s) && !IsAbsolute(n)
    requires Free(s, dir, n) && Permitted(s, dir, n)
    requires Free(s, dir, n + LockSuffix) && Permitted(s, dir, n + LockSuffix)
    ensures var o1 := WithNameInDir(s, dir, n);
            && o1.result.Ok?
            && var o2 := WithNameInDir(o1.state, dir, n + LockSuffix);
            && o2.result.Ok?
            && o2.result.value.bindPath == o1.result.value.lockPath
            && !Live(o2.state, o1.result.value)
            && var d := Drop(o2.state, o1.result.value);
            && Live(d, o2.result.value) && !Reachable(d, o2.result.value)
  {
    SuffixAfterOwner(s, dir, n);
    var o1 := WithNameInDir(s, dir, n);
    var o2 := WithNameInDir(o1.state, dir, n + LockSuffix);
    DropUnlinksOtherFile(o2.state, o1.result.value, o2.result.value);
  }

  /** The two acquisitions of `OwnerDropUnlinksSuffixSocket`. */
  lemma SuffixAfterOwner(s: State, dir: Path, n: string)
    requires Valid(s) && !IsAbsolute(n)
    requires Free(s, dir, n) && Permitted(s, dir, n)
    requires Free(s, dir, n + LockSuffix) && Permitted(s, dir, n + LockSuffix)
    ensures var o1 := WithNameInDir(s, dir, n);
            && o1.result.Ok?
            && var o2 := WithNameInDir(o1.state, dir, n + LockSuffix);
            && o2.result.Ok?
            && var (sock1, sock2) := (o1.result.value, o2.result.value);
            && Valid(o2.state) && Reachable(o2.state, sock2) && !Live(o2.state, sock1)
            && sock1.listener in o2.state.listeners
            && sock2.bindPath == sock1.lockPath && sock2.lockPath != sock1.bindPath
            && sock2.lock != sock1.lock && sock2.listener != sock1.listener && sock2.listener != sock1.lock
            && Unlink(sock1.lockPath) !in o2.state.refused
  {
    var m := n + LockSuffix;
    LockNameRelative(n);
    BindPathIsLockPath(dir, m, n);
    var o1 := WithNameInDir(s, dir, n);
    SuccessOwnsName(s, dir, n);
    AcquisitionKeepsValid(s, dir, n);
    assert BuildPaths(dir, m).1 != BuildPaths(dir, n).1 by {
      DistinctNamesDistinctPaths(dir, n, m);
    }
    assert n != m + LockSuffix by {
      assert |m + LockSuffix| > |n|;
    }
    BindPathIsLockPath(dir, n, m);
    StaleSocketReplaced(o1.state, dir, m);
    SuccessOwnsName(o1.state, dir, m);
    LockSuffixNameUnlinksLockFile(o1.state, o1.result.value, dir);
    AcquisitionKeepsValid(o1.state, dir, m);
  }

  /**
   * Dropping a socket, whose listener is still open, when its lock path
   * holds another reachable socket's file unlinks that file: the other
   * socket keeps its lock and listener but can no longer be reached.
   */
  lemma DropUnlinksOtherFile(s: State, sock: WaylandSocket, other: WaylandSocket)
    requires Valid(s) && Reachable(s, other) && sock.listener in s.listeners
    requires other.bindPath == sock.lockPath && other.lockPath != sock.bindPath
    requires other.lock != sock.lock && other.listener != sock.listener && other.listener != sock.lock
    requires Unlink(sock.lockPath) !in s.refused
    ensures Live(Drop(s, sock), other) && !Reachable(Drop(s, sock), other)
  {
    var s1 := AfterUnlink(s, sock.bindPath);
    var s2 := AfterUnlink(s1, sock.lockPath);
    assert other.bindPath !in s2.sockets;
    assert other.lockPath in s2.locks && s2.locks[other.lockPath] == other.lock;
    var s3 := AfterClose(s2, sock.listener);
    assert other.lockPath in s3.locks && s3.locks[other.lockPath] == other.lock;
  }

  /**
   * Two servers in one directory with candidates `[a, b]`: the first binds
   * `a`; the second skips the locked `a` and binds `b`; once the first
   * socket is dropped, a third search binds `a` again. The second socket
   * stays alive throughout.
   */
  lemma TwoServersShareDirectory(s: State, dir: Path, a: string, b: string)
    requires Valid(s)
    requires !IsAbsolute(a) && !IsAbsolute(b) && a != b
    requires a != b + LockSuffix && b != a + LockSuffix
    requires Free(s, dir, a) && Free(s, dir, b)
    requires Permitted(s, dir, a) && Permitted(s, dir, b)
    ensures var o1 := WithCandidatesInDir(s, dir, [a, b]);
            && o1.result.Ok? && o1.result.value.name == a
            && var o2 := WithCandidatesInDir(o1.state, dir, [a, b]);
            && o2.result.Ok? && o2.result.value.name == b
            && var s3 := Drop(o2.state, o1.result.value);
            && var o3 := WithCandidatesInDir(s3, dir, [a, b]);
            && o3.result.Ok? && o3.result.value.name == a
            && Reachable(o3.state, o2.result.value)
  {
    var o1 := WithCandidatesInDir(s, dir, [a, b]);
    assert o1.result.Ok? && o1.result.value.name == a by {
      FirstCandidateFree(s, dir, [a, b]);
    }
    var sock1 := o1.result.value;
    assert Valid(o1.state) && Free(o1.state, dir, b) by {
      AcquisitionKeepsValid(s, dir, a);
      SuccessOwnsName(s, dir, a);
      DistinctNamesDistinctPaths(dir, a, b);
      BindPathIsLockPath(dir, a, b);
    }
    SecondServer(o1.state, sock1, dir, a, b);
    var o2 := WithCandidatesInDir(o1.state, dir, [a, b]);
    ThirdServer(o2.state, sock1, o2.result.value, dir, a, b);
  }

  /** The second search of the scenario: `a` is owned by a live socket, `b` is free. */
  lemma SecondServer(t: State, sock1: WaylandSocket, dir: Path, a: string, b: string)
    requires Valid(t) && Reachable(t, sock1)
    requires !IsAbsolute(a) && !IsAbsolute(b) && a != b
    requires a != b + LockSuffix && b != a + LockSuffix
    requires sock1.name == a && (sock1.bindPath, sock1.lockPath) == BuildPaths(dir, a)
    requires Free(t, dir, b)
    requires Permitted(t, dir, a) && Permitted(t, dir, b)
    ensures var o2 := WithCandidatesInDir(t, dir, [a, b]);
            && o2.result.Ok? && o2.result.value.name == b
            && Valid(o2.state) && Reachable(o2.state, sock1)
            && Permitted(o2.state, dir, a)
  {
    SkipsHeldCandidate(t, dir, a, b);
    SelectionKeepsValid(t, dir, [a, b]);
    BindPathIsLockPath(dir, b, a);
    SelectionKeepsOthersLive(t, sock1, dir, [a, b]);
  }

  /** The third search of the scenario: the socket for `a` is dropped, then `a` is free again. */
  lemma ThirdServer(u: State, sock1: WaylandSocket, sock2: WaylandSocket, dir: Path, a: string, b: string)
    requires Valid(u) && Reachable(u, sock1) && Reachable(u, sock2)
    requires !IsAbsolute(a) && !IsAbsolute(b) && a != b
    requires a != b + LockSuffix && b != a + LockSuffix
    requires sock1.name == a && (sock1.bindPath, sock1.lockPath) == BuildPaths(dir, a)
    requires sock2.name == b && (sock2.bindPath, sock2.lockPath) == BuildPaths(dir, b)
    requires Permitted(u, dir, a)
    ensures var o3 := WithCandidatesInDir(Drop(u, sock1), dir, [a, b]);
            && o3.result.Ok? && o3.result.value.name == a
            && Reachable(o3.state, sock2)
  {
    DropFirstServer(u, sock1, sock2, dir, a, b);
    ReacquireFirst(Drop(u, sock1), sock2, dir, a, b);
  }

  /** The search after the drop: `a` is free and binds, `b`'s socket stays reachable. */
  lemma ReacquireFirst(d: State, sock2: WaylandSocket, dir: Path, a: string, b: string)
    requires Valid(d) && Reachable(d, sock2)
    requires !IsAbsolute(a) && !IsAbsolute(b) && a != b + LockSuffix
    requires (sock2.bindPath, sock2.lockPath) == BuildPaths(dir, b)
    requires Free(d, dir, a) && Permitted(d, dir, a)
    ensures var o3 := WithCandidatesInDir(d, dir, [a, b]);
            && o3.result.Ok? && o3.result.value.name == a
            && Reachable(o3.state, sock2)
  {
    FirstCandidateFree(d, dir, [a, b]);
    var c := [a, b];
    assert BuildPaths(dir, c[0]).0 != sock2.lockPath && BuildPaths(dir, c[1]).0 != sock2.lockPath by {
      BindPathIsLockPath(dir, a, b);
      BindPathIsLockPath(dir, b, b);
    }
    SelectionKeepsOthersLive(d, sock2, dir, c);
  }

  /** The drop in the scenario: `b`'s socket stays reachable and `a` becomes free. */
  lemma DropFirstServer(u: State, sock1: WaylandSocket, sock2: WaylandSocket, dir: Path, a: string, b: string)
    requires Valid(u) && Reachable(u, sock1) && Reachable(u, sock2)
    requires !IsAbsolute(a) && !IsAbsolute(b) && a != b
    requires a != b + LockSuffix && b != a + LockSuffix
    requires (sock1.bindPath, sock1.lockPath) == BuildPaths(dir, a)
    requires (sock2.bindPath, sock2.lockPath) == BuildPaths(dir, b)
    requires Permitted(u, dir, a)
    ensures var d := Drop(u, sock1);
            && Valid(d) && Reachable(d, sock2)
            && Free(d, dir, a) && Permitted(d, dir, a)
  {
    DistinctNamesDistinctPaths(dir, a, b);
    BindPathIsLockPath(dir, a, b);
    BindPathIsLockPath(dir, b, a);
    assert sock1.lock != sock2.lock && sock1.listener != sock2.listener;
    DropKeepsOthersLive(u, sock1, sock2);
    DropKeepsValid(u, sock1);
    DropRemovesArtifacts(u, sock1);
  }

  /**
   * When the first candidate's lock is free and none of its calls is refused,
   * the search returns that candidate's socket.
   */
  lemma FirstCandidateFree(s: State, dir: Path, candidates: seq<string>)
    requires Valid(s) && |candidates| > 0
    requires Free(s, dir, candidates[0]) && Permitted(s, dir, candidates[0])
    ensures WithCandidatesInDir(s, dir, candidates) == WithNameInDir(s, dir, candidates[0])
    ensures WithCandidatesInDir(s, dir, candidates).result.Ok?
    ensures WithCandidatesInDir(s, dir, candidates).result.value.name == candidates[0]
  {
    StaleSocketReplaced(s, dir, candidates[0]);
  }
}

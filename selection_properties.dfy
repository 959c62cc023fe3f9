/** What the candidate loop (`with_candidates_in_dir`) does with a sequence of names. */
module SelectionProperties {
  import opened Errors
  import opened Options
  import opened Paths
  import opened Os
  import opened SocketSpec
  import opened AcquireProperties

  /**
   * The state after trying every name in `names` in turn, when each attempt
   * failed with `LockAcquire`; `None` when one of them ended otherwise.
   */
  function Contended(s: State, dir: Path, names: seq<string>): Option<State>
    decreases |names|
  {
    if names == [] then Some(s)
    else
      var o := WithNameInDir(s, dir, names[0]);
      if o.result == Err(LockAcquire) then Contended(o.state, dir, names[1..]) else None
  }

  lemma ContendedStep(s: State, dir: Path, names: seq<string>, k: nat)
    requires k < |names|
    requires WithNameInDir(s, dir, names[0]).result == Err(LockAcquire)
    ensures Contended(s, dir, names[..k + 1]) == Contended(WithNameInDir(s, dir, names[0]).state, dir, names[1..][..k])
  {
    assert names[..k + 1][1..] == names[1..][..k];
  }

  /**
   * The search over `candidates` ended with `o` after skipping the first `k`
   * candidates, each of which failed with `LockAcquire`: either candidate
   * `k` ended it with its own outcome, which is not `LockAcquire`, or none
   * was left and the answer is `NoAvailableSocket`.
   */
  predicate SettledAt(s: State, dir: Path, candidates: seq<string>, k: nat, o: Outcome<WaylandSocket>) {
    && k <= |candidates| && Contended(s, dir, candidates[..k]).Some?
    && var t := Contended(s, dir, candidates[..k]).value;
    && (k < |candidates| ==> o == WithNameInDir(t, dir, candidates[k]) && o.result != Err(LockAcquire))
    && (k == |candidates| ==> o == Outcome(t, Err(NoAvailableSocket)))
  }

  /** The whole behaviour of the loop: it settles at some number of skipped candidates. */
  lemma {:induction false} SelectionSemantics(s: State, dir: Path, candidates: seq<string>)
    ensures exists k: nat :: SettledAt(s, dir, candidates, k, WithCandidatesInDir(s, dir, candidates))
    decreases |candidates|
  {
    var o := WithCandidatesInDir(s, dir, candidates);
    if candidates == [] {
      assert candidates[..0] == [];
      assert SettledAt(s, dir, candidates, 0, o);
    } else {
      var first := WithNameInDir(s, dir, candidates[0]);
      if first.result == Err(LockAcquire) {
        var rest := candidates[1..];
        assert o == WithCandidatesInDir(first.state, dir, rest);
        SelectionSemantics(first.state, dir, rest);
        var k: nat :| SettledAt(first.state, dir, rest, k, o);
        ContendedStep(s, dir, candidates, k);
        if k == |rest| {
          assert candidates[..k + 1] == candidates;
        } else {
          assert rest[k] == candidates[k + 1];
        }
        assert SettledAt(s, dir, candidates, k + 1, o);
      } else {
        assert candidates[..0] == [];
        assert SettledAt(s, dir, candidates, 0, o);
      }
    }
  }

  /** The result is never `LockAcquire`: contention only advances the search. */
  lemma SelectionNeverReportsContention(s: State, dir: Path, candidates: seq<string>)
    ensures WithCandidatesInDir(s, dir, candidates).result != Err(LockAcquire)
  {
    SelectionSemantics(s, dir, candidates);
  }

  /**
   * First success: a socket is returned for the first candidate whose
   * acquisition succeeds, and every earlier candidate failed with
   * `LockAcquire`.
   */
  lemma FirstSuccess(s: State, dir: Path, candidates: seq<string>)
    requires WithCandidatesInDir(s, dir, candidates).result.Ok?
    ensures var o := WithCandidatesInDir(s, dir, candidates);
            exists k :: 0 <= k < |candidates| && Contended(s, dir, candidates[..k]).Some?
                     && candidates[k] == o.result.value.name
                     && o == WithNameInDir(Contended(s, dir, candidates[..k]).value, dir, candidates[k])
  {
    SelectionSemantics(s, dir, candidates);
  }

  /**
   * Abort: a `LockOpen` or `Bind` error ends the search. It is the error of
   * some candidate reached past contended ones, returned unchanged, and the
   * final state is the one that attempt left, so no later candidate was tried.
   */
  lemma AbortStopsSearch(s: State, dir: Path, candidates: seq<string>)
    requires WithCandidatesInDir(s, dir, candidates).result in {Err(LockOpen), Err(Bind)}
    ensures var o := WithCandidatesInDir(s, dir, candidates);
            exists k :: 0 <= k < |candidates| && Contended(s, dir, candidates[..k]).Some?
                     && o == WithNameInDir(Contended(s, dir, candidates[..k]).value, dir, candidates[k])
  {
    SelectionSemantics(s, dir, candidates);
  }

  /**
   * Exhaustion: the result is `NoAvailableSocket` exactly when every
   * candidate (none, for an empty sequence) failed with `LockAcquire`.
   */
  lemma ExhaustedIffAllContended(s: State, dir: Path, candidates: seq<string>)
    ensures var o := WithCandidatesInDir(s, dir, candidates);
            && (o.result == Err(NoAvailableSocket) <==> Contended(s, dir, candidates).Some?)
            && (o.result == Err(NoAvailableSocket) ==> o.state == Contended(s, dir, candidates).value)
  {
    SelectionSemantics(s, dir, candidates);
    var o := WithCandidatesInDir(s, dir, candidates);
    var k: nat :| SettledAt(s, dir, candidates, k, o);
    if k < |candidates| {
      ContendedPrefixStops(s, dir, candidates, k);
    } else {
      assert candidates[..k] == candidates;
    }
  }

  /**
   * When the first `k` candidates are contended and candidate `k` is not,
   * the whole sequence is not contended.
   */
  lemma {:induction false} ContendedPrefixStops(s: State, dir: Path, names: seq<string>, k: nat)
    requires k < |names| && Contended(s, dir, names[..k]).Some?
    requires WithNameInDir(Contended(s, dir, names[..k]).value, dir, names[k]).result != Err(LockAcquire)
    ensures Contended(s, dir, names).None?
    decreases k
  {
    if k > 0 {
      var first := WithNameInDir(s, dir, names[0]);
      assert names[..k][0] == names[0];
      assert first.result == Err(LockAcquire);
      ContendedStep(s, dir, names, k - 1);
      assert names[1..][..k - 1] == names[..k][1..];
      assert names[1..][k - 1] == names[k];
      ContendedPrefixStops(first.state, dir, names[1..], k - 1);
    }
  }

  /**
   * When every candidate's lock is held and every lock file can be opened,
   * the result is `NoAvailableSocket` and no file, lock or listener was
   * added or removed.
   */
  lemma {:induction false} AllHeldLeavesNoArtifacts(s: State, dir: Path, candidates: seq<string>)
    requires Valid(s)
    requires forall i :: 0 <= i < |candidates| ==>
               BuildPaths(dir, candidates[i]).1 in s.locks && OpenAt(BuildPaths(dir, candidates[i]).1) !in s.refused
    ensures var o := WithCandidatesInDir(s, dir, candidates);
            && o.result == Err(NoAvailableSocket)
            && o.state.files == s.files && o.state.sockets == s.sockets
            && o.state.locks == s.locks && o.state.listeners == s.listeners
    decreases |candidates|
  {
    if candidates != [] {
      var first := WithNameInDir(s, dir, candidates[0]);
      HeldLockExcludes(s, dir, candidates[0]);
      AcquisitionKeepsValid(s, dir, candidates[0]);
      AllHeldLeavesNoArtifacts(first.state, dir, candidates[1..]);
    }
  }

  /** The loop keeps the state well formed. */
  lemma {:induction false} SelectionKeepsValid(s: State, dir: Path, candidates: seq<string>)
    requires Valid(s)
    ensures Valid(WithCandidatesInDir(s, dir, candidates).state)
    decreases |candidates|
  {
    if candidates != [] {
      AcquisitionKeepsValid(s, dir, candidates[0]);
      var first := WithNameInDir(s, dir, candidates[0]);
      if first.result == Err(LockAcquire) {
        SelectionKeepsValid(first.state, dir, candidates[1..]);
      }
    }
  }

  /**
   * A live socket stays alive through a search over names none of whose
   * socket paths is its lock file, and a reachable one stays reachable.
   */
  lemma {:induction false} SelectionKeepsOthersLive(s: State, sock: WaylandSocket, dir: Path, candidates: seq<string>)
    requires Valid(s) && Live(s, sock)
    requires forall i :: 0 <= i < |candidates| ==> BuildPaths(dir, candidates[i]).0 != sock.lockPath
    ensures Live(WithCandidatesInDir(s, dir, candidates).state, sock)
    ensures Reachable(s, sock) ==> Reachable(WithCandidatesInDir(s, dir, candidates).state, sock)
    decreases |candidates|
  {
    if candidates != [] {
      AcquisitionKeepsValid(s, dir, candidates[0]);
      AcquisitionKeepsOthersLive(s, sock, dir, candidates[0]);
      var first := WithNameInDir(s, dir, candidates[0]);
      if first.result == Err(LockAcquire) {
        SelectionKeepsOthersLive(first.state, sock, dir, candidates[1..]);
      }
    }
  }

  /**
   * Candidates `[a, b]` with `a`'s lock held by a live holder: the search
   * binds `b` and leaves `a`'s socket path as it was.
   */
  lemma SkipsHeldCandidate(s: State, dir: Path, a: string, b: string)
    requires Valid(s)
    requires !IsAbsolute(a) && !IsAbsolute(b) && a != b && a != b + LockSuffix
    requires BuildPaths(dir, a).1 in s.locks && OpenAt(BuildPaths(dir, a).1) !in s.refused
    requires Free(s, dir, b) && Permitted(s, dir, b)
    ensures var o := WithCandidatesInDir(s, dir, [a, b]);
            && o.result.Ok? && o.result.value.name == b
            && (BuildPaths(dir, a).0 in o.state.files <==> BuildPaths(dir, a).0 in s.files)
  {
    var first := WithNameInDir(s, dir, a);
    HeldLockExcludes(s, dir, a);
    AcquisitionKeepsValid(s, dir, a);
    assert [a, b][1..] == [b];
    StaleSocketReplaced(first.state, dir, b);
    DistinctNamesDistinctPaths(dir, a, b);
    BindPathIsLockPath(dir, a, b);
    AcquisitionFrame(first.state, dir, b, BuildPaths(dir, a).0);
  }
}

/** The default candidate names that `WaylandSocket::auto` tries. */
module Candidates {
  import opened Paths

  predicate IsDigit(c: char) {
    '0' as int <= c as int <= '9' as int
  }

  function DigitChar(d: nat): (c: char)
    requires d < 10
    ensures IsDigit(c) && c as int - '0' as int == d
  {
    (d + '0' as int) as char
  }

  /** `format!("{n}")` for a natural number: its decimal digits, most significant first. */
  function NatToString(n: nat): (r: string)
    ensures |r| >= 1
    ensures forall i :: 0 <= i < |r| ==> IsDigit(r[i])
    ensures |r| > 1 ==> r[0] != '0'
    decreases n
  {
    if n < 10 then [DigitChar(n)] else NatToString(n / 10) + [DigitChar(n % 10)]
  }

  /** The number a string of decimal digits denotes, most significant digit first. */
  function DecimalValue(s: string): nat
    requires forall i :: 0 <= i < |s| ==> IsDigit(s[i])
  {
    if s == [] then 0
    else
      assert IsDigit(s[|s| - 1]);
      10 * DecimalValue(s[..|s| - 1]) + (s[|s| - 1] as int - '0' as int)
  }

  /** `NatToString(n)` spells `n` in decimal. */
  lemma {:induction false} NatToStringDecimal(n: nat)
    ensures DecimalValue(NatToString(n)) == n
    decreases n
  {
    var r := NatToString(n);
    if n >= 10 {
      var p := NatToString(n / 10);
      assert r == p + [DigitChar(n % 10)];
      assert r[..|r| - 1] == p;
      NatToStringDecimal(n / 10);
    }
  }

  /** Different numbers print differently. */
  lemma NatToStringInjective(a: nat, b: nat)
    requires NatToString(a) == NatToString(b)
    ensures a == b
  {
    NatToStringDecimal(a);
    NatToStringDecimal(b);
  }

  const Prefix: string := "wayland-"

  /** The default name for index `i`: `format!("wayland-{i}")`. */
  function WaylandName(i: nat): (r: string)
    ensures Prefix <= r && |r| > |Prefix|
    ensures forall k :: |Prefix| <= k < |r| ==> IsDigit(r[k])
    ensures DecimalValue(r[|Prefix|..]) == i
  {
    NatToStringDecimal(i);
    assert (Prefix + NatToString(i))[|Prefix|..] == NatToString(i);
    Prefix + NatToString(i)
  }

  /** The candidates of `auto`: the half-open range `1..32`, mapped to names in order. */
  function AutoCandidates(): (r: seq<string>)
    ensures |r| == 31
    ensures forall i :: 0 <= i < |r| ==> r[i] == WaylandName(i + 1)
  {
    seq(31, i requires 0 <= i => WaylandName(i + 1))
  }

  lemma WaylandNameInjective(a: nat, b: nat)
    requires WaylandName(a) == WaylandName(b)
    ensures a == b
  {
    assert NatToString(a) == WaylandName(a)[|Prefix|..];
    assert NatToString(b) == WaylandName(b)[|Prefix|..];
    NatToStringInjective(a, b);
  }

  /**
   * `auto` offers `wayland-k` exactly for 1 <= k < 32: `wayland-0` and
   * `wayland-32` are never tried.
   */
  lemma AutoTriesOneToThirtyOne(k: nat)
    ensures WaylandName(k) in AutoCandidates() <==> 1 <= k < 32
  {
    var c := AutoCandidates();
    if 1 <= k < 32 {
      assert c[k - 1] == WaylandName(k);
    }
    if WaylandName(k) in c {
      var i :| 0 <= i < |c| && c[i] == WaylandName(k);
      WaylandNameInjective(i + 1, k);
    }
  }

  /** The candidates are pairwise distinct, so each name is tried at most once. */
  lemma AutoCandidatesDistinct(i: nat, j: nat)
    requires i < j < |AutoCandidates()|
    ensures AutoCandidates()[i] != AutoCandidates()[j]
  {
  }

  /** No default name ends in ".lock", and none is absolute. */
  lemma AutoCandidateShape(i: nat)
    requires i < |AutoCandidates()|
    ensures !IsAbsolute(AutoCandidates()[i])
    ensures forall n :: AutoCandidates()[i] != n + LockSuffix
  {
    var c := AutoCandidates()[i];
    var digits := NatToString(i + 1);
    assert c == Prefix + digits;
    assert c[|c| - 1] == digits[|digits| - 1];
    forall n ensures c != n + LockSuffix {
      assert (n + LockSuffix)[|n + LockSuffix| - 1] == 'k';
    }
  }

  /**
   * Within one directory the artifacts of the default candidates never
   * overlap: distinct names have distinct socket and lock paths, and no
   * socket path is another candidate's lock path.
   */
  lemma AutoArtifactsDisjoint(dir: Path, i: nat, j: nat)
    requires i < |AutoCandidates()| && j < |AutoCandidates()|
    ensures BuildPaths(dir, AutoCandidates()[i]).0 != BuildPaths(dir, AutoCandidates()[j]).1
    ensures i != j ==> BuildPaths(dir, AutoCandidates()[i]).0 != BuildPaths(dir, AutoCandidates()[j]).0
    ensures i != j ==> BuildPaths(dir, AutoCandidates()[i]).1 != BuildPaths(dir, AutoCandidates()[j]).1
  {
    var c := AutoCandidates();
    AutoCandidateShape(i);
    AutoCandidateShape(j);
    BindPathIsLockPath(dir, c[i], c[j]);
    if i != j {
      if i < j { AutoCandidatesDistinct(i, j); } else { AutoCandidatesDistinct(j, i); }
      DistinctNamesDistinctPaths(dir, c[i], c[j]);
    }
  }
}

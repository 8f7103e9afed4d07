/** The names the pipeline gives its lock, its temporary output and its backup,
    and what can be read back from them. */
module Sidecars {

  const LOCK := ".tf_lock"
  const TMP := ".tf_tmp"
  const BAK := ".tf_bak"

  predicate IsMarker(m: string) {
    m == LOCK || m == TMP || m == BAK
  }

  predicate OccursAt(s: string, m: string, i: nat) {
    i + |m| <= |s| && s[i..i + |m|] == m
  }

  predicate Contains(s: string, m: string) {
    exists i :: 0 <= i <= |s| && OccursAt(s, m, i)
  }

  /** The scanner's test for the pipeline's own files. */
  predicate IsPipelineArtifact(name: string) {
    Contains(name, LOCK) || Contains(name, TMP) || Contains(name, BAK)
  }

  /** A name no sidecar could have: what a source is called. */
  predicate MarkerFree(name: string) {
    !IsPipelineArtifact(name)
  }

  /** `Path.suffix` starts at the last dot, unless that dot is the first or the
      last character. This is where the stem ends. */
  function LastDot(name: string, n: nat): (i: int)
    requires n <= |name|
    ensures -1 <= i < n
  {
    if n == 0 then -1 else if name[n - 1] == '.' then n - 1 else LastDot(name, n - 1)
  }

  function StemLength(name: string): (n: nat)
    ensures n <= |name|
  {
    var i := LastDot(name, |name|);
    if 0 < i < |name| - 1 then i else |name|
  }

  function Stem(name: string): string { name[..StemLength(name)] }

  function Suffix(name: string): string { name[StemLength(name)..] }

  function LockName(name: string): string { name + LOCK }

  function TmpName(name: string): string { Stem(name) + TMP + Suffix(name) }

  function BakName(name: string): string { Stem(name) + BAK + Suffix(name) }

  /** Where `m` first occurs in `s` at or after `i`; `|s|` when it does not. */
  function FirstIndex(s: string, m: string, i: nat): (r: nat)
    requires i <= |s|
    ensures i <= r <= |s|
    ensures r < |s| ==> OccursAt(s, m, r)
    ensures forall k | i <= k < r :: !OccursAt(s, m, k)
    decreases |s| - i
  {
    if i == |s| || OccursAt(s, m, i) then i else FirstIndex(s, m, i + 1)
  }

  /** `s.replace(m, "", 1)`. */
  function RemoveFirst(s: string, m: string): string {
    var i := FirstIndex(s, m, 0);
    if OccursAt(s, m, i) then s[..i] + s[i + |m|..] else s
  }

  /** `s.removesuffix(m)`. */
  function RemoveSuffix(s: string, m: string): string {
    if |m| <= |s| && s[|s| - |m|..] == m then s[..|s| - |m|] else s
  }

  /** What the names look like: the lock's marker comes last, the other two before
      the extension. */
  lemma SidecarsOf(stem: string, ext: string)
    requires stem != "" && ext != "" && '.' !in ext
    ensures LockName(stem + "." + ext) == stem + "." + ext + ".tf_lock"
    ensures TmpName(stem + "." + ext) == stem + ".tf_tmp" + "." + ext
    ensures BakName(stem + "." + ext) == stem + ".tf_bak" + "." + ext
  {
    var name := stem + "." + ext;
    forall k | |stem| < k < |name| ensures name[k] != '.' { assert name[k] == ext[k - |stem| - 1]; }
    LastDotIsLast(name, |name|, |stem|);
    assert name[..|stem|] == stem && name[|stem|..] == "." + ext;
  }

  lemma {:induction false} LastDotIsLast(name: string, n: nat, i: nat)
    requires i < n <= |name| && name[i] == '.' && forall k | i < k < n :: name[k] != '.'
    ensures LastDot(name, n) == i
  {
    if i < n - 1 { LastDotIsLast(name, n - 1, i); }
  }

  // ---- A marker is found where it was put, and nowhere else ----

  lemma MarkerDots(m: string)
    requires IsMarker(m)
    ensures |m| > 4 && m[0] == '.' && forall k | 1 <= k < |m| :: m[k] != '.'
    ensures m == LOCK ==> m[4] == 'l'
    ensures m == TMP ==> m[4] == 't'
    ensures m == BAK ==> m[4] == 'b'
  {
  }

  lemma OccurrenceIsInside(stem: string, m: string, suffix: string, m': string, i: nat)
    requires IsMarker(m) && IsMarker(m') && OccursAt(stem + m + suffix, m', i)
    ensures i + |m'| <= |stem| || (i == |stem| && m == m') || |stem| + |m| <= i
  {
    var s := stem + m + suffix;
    MarkerDots(m);
    MarkerDots(m');
    assert forall k | 0 <= k < |m'| :: m'[k] == s[i..i + |m'|][k] == s[i + k];
    assert forall k | 0 <= k < |m| :: s[|stem| + k] == m[k];
    assert s[|stem|] == '.' && s[i] == '.';
    if i == |stem| {
      assert m'[4] == s[i + 4] == m[4];
    }
  }

  /** Putting a marker into a name that has none makes exactly one occurrence. */
  lemma OnlyItsMarker(stem: string, m: string, suffix: string, m': string, i: nat)
    requires IsMarker(m) && IsMarker(m') && !Contains(stem + suffix, m')
    requires OccursAt(stem + m + suffix, m', i)
    ensures i == |stem| && m' == m
  {
    OccurrenceIsInside(stem, m, suffix, m', i);
    var s := stem + m + suffix;
    if i + |m'| <= |stem| {
      assert (stem + suffix)[i..i + |m'|] == s[i..i + |m'|];
      assert OccursAt(stem + suffix, m', i);
    } else if |stem| + |m| <= i {
      assert (stem + suffix)[i - |m|..i - |m| + |m'|] == s[i..i + |m'|];
      assert OccursAt(stem + suffix, m', i - |m|);
    }
  }

  lemma MarkerIsThere(stem: string, m: string, suffix: string)
    requires IsMarker(m)
    ensures OccursAt(stem + m + suffix, m, |stem|) && Contains(stem + m + suffix, m)
  {
    var s := stem + m + suffix;
    assert s[|stem|..|stem| + |m|] == m;
    assert OccursAt(s, m, |stem|);
  }

  lemma {:induction false} RemovesWhatWasAdded(stem: string, m: string, suffix: string)
    requires IsMarker(m) && !Contains(stem + suffix, m)
    ensures RemoveFirst(stem + m + suffix, m) == stem + suffix
  {
    var s := stem + m + suffix;
    MarkerIsThere(stem, m, suffix);
    var i := FirstIndex(s, m, 0);
    MarkerDots(m);
    assert i <= |stem|;
    OnlyItsMarker(stem, m, suffix, m, i);
    assert s[..i] == stem && s[i + |m|..] == suffix;
  }

  lemma NameIsStemAndSuffix(name: string)
    ensures Stem(name) + Suffix(name) == name
  {
  }

  /** The backup and lock names of a marker-free source lead back to it, which
      is how the startup scan finds the source. */
  lemma SidecarRoundTrip(name: string)
    requires MarkerFree(name)
    ensures RemoveFirst(BakName(name), BAK) == name
    ensures RemoveFirst(TmpName(name), TMP) == name
    ensures RemoveSuffix(LockName(name), LOCK) == name
  {
    NameIsStemAndSuffix(name);
    RemovesWhatWasAdded(Stem(name), BAK, Suffix(name));
    RemovesWhatWasAdded(Stem(name), TMP, Suffix(name));
    assert LockName(name)[|name|..] == LOCK;
  }

  /** The marker a sidecar of kind `m` carries is the only one in its name. */
  lemma SidecarMarkers(name: string)
    requires MarkerFree(name)
    ensures Contains(LockName(name), LOCK) && !Contains(LockName(name), TMP) && !Contains(LockName(name), BAK)
    ensures Contains(TmpName(name), TMP) && !Contains(TmpName(name), LOCK) && !Contains(TmpName(name), BAK)
    ensures Contains(BakName(name), BAK) && !Contains(BakName(name), LOCK) && !Contains(BakName(name), TMP)
  {
    NameIsStemAndSuffix(name);
    assert name + "" == name && LockName(name) == name + LOCK + "";
    CarriesOnly(name, LOCK, "");
    CarriesOnly(Stem(name), TMP, Suffix(name));
    CarriesOnly(Stem(name), BAK, Suffix(name));
  }

  lemma CarriesOnly(stem: string, m: string, suffix: string)
    requires IsMarker(m) && MarkerFree(stem + suffix)
    ensures Contains(stem + m + suffix, m)
    ensures forall m' | IsMarker(m') && m' != m :: !Contains(stem + m + suffix, m')
  {
    MarkerIsThere(stem, m, suffix);
    forall m', i: nat | IsMarker(m') && OccursAt(stem + m + suffix, m', i)
      ensures m' == m
    {
      OnlyItsMarker(stem, m, suffix, m', i);
    }
  }

  /** The three maps are injective on marker-free names; their images are
      disjoint from one another and from every marker-free name; and the
      scanner takes none of them for a source. */
  lemma SidecarsNeverCollide(a: string, b: string)
    requires MarkerFree(a) && MarkerFree(b)
    ensures LockName(a) == LockName(b) ==> a == b
    ensures TmpName(a) == TmpName(b) ==> a == b
    ensures BakName(a) == BakName(b) ==> a == b
    ensures LockName(a) != TmpName(b) && LockName(a) != BakName(b) && TmpName(a) != BakName(b)
    ensures b != LockName(a) && b != TmpName(a) && b != BakName(a)
    ensures IsPipelineArtifact(LockName(a)) && IsPipelineArtifact(TmpName(a)) && IsPipelineArtifact(BakName(a))
  {
    SidecarRoundTrip(a);
    SidecarRoundTrip(b);
    SidecarMarkers(a);
    SidecarMarkers(b);
  }

  /** Only backups carry the backup marker, and only locks end in the lock
      marker, so the scan's two globs list exactly those. */
  lemma GlobsAreExact(name: string)
    requires MarkerFree(name)
    ensures !Contains(name, BAK) && RemoveSuffix(name, LOCK) == name
    ensures RemoveSuffix(TmpName(name), LOCK) == TmpName(name) && RemoveSuffix(BakName(name), LOCK) == BakName(name)
  {
    SidecarMarkers(name);
    NoSuffix(name);
    NoSuffix(TmpName(name));
    NoSuffix(BakName(name));
  }

  lemma NoSuffix(s: string)
    requires !Contains(s, LOCK)
    ensures RemoveSuffix(s, LOCK) == s
  {
    if |LOCK| <= |s| && s[|s| - |LOCK|..] == LOCK {
      assert s[|s| - |LOCK|..|s| - |LOCK| + |LOCK|] == LOCK;
      assert OccursAt(s, LOCK, |s| - |LOCK|);
    }
  }
}

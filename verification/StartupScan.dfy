/** The recovery routines as they work on a media tree: sidecars are found by
    their names and the source is read back off them. */
module StartupScan {
  import opened Options
  import opened Sidecars
  import opened Recovery

  predicate IsSource(p: Path) { MarkerFree(p.name) }

  /** `pipeline_artifacts`. */
  function Artifacts(p: Path): Names {
    Names(p, p.(name := LockName(p.name)), p.(name := TmpName(p.name)), p.(name := BakName(p.name)))
  }

  /** The families of some marker-free sources. */
  ghost predicate OfSources(fams: set<Names>) {
    forall n | n in fams :: IsSource(n.src) && n == Artifacts(n.src)
  }

  lemma ArtifactsAreApart(n: Names, m: Names)
    requires IsSource(n.src) && n == Artifacts(n.src) && IsSource(m.src) && m == Artifacts(m.src)
    ensures n.Distinct()
    ensures n != m ==> n.All() !! m.All()
  {
    SidecarsNeverCollide(n.src.name, n.src.name);
    SidecarsNeverCollide(n.src.name, m.src.name);
    SidecarsNeverCollide(m.src.name, n.src.name);
  }

  lemma SourcesMakeALayout(fams: set<Names>)
    requires OfSources(fams)
    ensures Layout(fams)
  {
    forall n, m | n in fams && m in fams
      ensures n.Distinct() && (n != m ==> n.All() !! m.All())
    {
      ArtifactsAreApart(n, m);
    }
  }

  /** The two globs: names that carry the backup marker, names that end in the
      lock marker. */
  predicate Listed(p: Path, pass: Pass) {
    match pass
    case Backups => Contains(p.name, BAK)
    case Locks => RemoveSuffix(p.name, LOCK) != p.name
  }

  /** The source a listed sidecar belongs to, by its name alone. */
  function SourceOf(p: Path, pass: Pass): Path {
    p.(name := match pass case Backups => RemoveFirst(p.name, BAK) case Locks => RemoveSuffix(p.name, LOCK))
  }

  lemma ListedNames(src: Path)
    requires IsSource(src)
    ensures var n := Artifacts(src);
            && !Listed(src, Backups) && !Listed(n.lock, Backups) && !Listed(n.tmp, Backups) && Listed(n.bak, Backups)
            && !Listed(src, Locks) && !Listed(n.tmp, Locks) && !Listed(n.bak, Locks) && Listed(n.lock, Locks)
  {
    SidecarMarkers(src.name);
    SidecarRoundTrip(src.name);
    GlobsAreExact(src.name);
  }

  lemma SourceIsReadBack(src: Path, pass: Pass)
    requires IsSource(src)
    ensures SourceOf(Sidecar(Artifacts(src), pass), pass) == src
  {
    SidecarRoundTrip(src.name);
  }

  /** A sidecar leads back to its family, and only that sidecar is listed. */
  lemma SidecarLeadsBack(n: Names, p: Path, pass: Pass)
    requires IsSource(n.src) && n == Artifacts(n.src) && p in n.All()
    ensures Listed(p, pass) <==> p == Sidecar(n, pass)
    ensures p == Sidecar(n, pass) ==> Artifacts(SourceOf(p, pass)) == n
  {
    ListedNames(n.src);
    OnlyTheListed(n, p, pass, Listed(n.src, pass), Listed(n.lock, pass), Listed(n.tmp, pass), Listed(n.bak, pass));
    SourceIsReadBack(n.src, pass);
  }

  lemma OnlyTheListed(n: Names, p: Path, pass: Pass, src: bool, lock: bool, tmp: bool, bak: bool)
    requires p in n.All() && !src && !tmp && lock == pass.Locks? && bak == pass.Backups?
    requires src == Listed(n.src, pass) && lock == Listed(n.lock, pass)
    requires tmp == Listed(n.tmp, pass) && bak == Listed(n.bak, pass)
    ensures Listed(p, pass) <==> p == Sidecar(n, pass)
  {
  }

  lemma ListedLeadsBack(fams: set<Names>, t: Tree, p: Path, pass: Pass)
    requires OfSources(fams) && Within(t, fams) && p in t && Listed(p, pass)
    ensures Artifacts(SourceOf(p, pass)) in fams && Sidecar(Artifacts(SourceOf(p, pass)), pass) == p
  {
    var n :| n in fams && p in n.All();
    SidecarLeadsBack(n, p, pass);
  }

  class MediaTree {
    var files: Tree

    constructor (files: Tree)
      ensures this.files == files
    {
      this.files := files;
    }

    method SafeDelete(p: Path, fails: bool)
      modifies this
      ensures files == Unlink(old(files), p, fails)
    {
      if p in files && !fails {
        files := files - {p};
      } else {
        assert p !in files ==> files == files - {p};
      }
    }

    /** Single-path recovery. Whatever fails, nothing outside the family moves,
        and an answer that lets the job go on leaves the right content at the
        source: the backup if there was one, else what was there. */
    method RecoverSourcePath(src: Path, me: nat, now: int, f: Faults) returns (outcome: Outcome)
      requires IsSource(src)
      modifies this
      ensures (files, outcome) == Recover(old(files), Artifacts(src), me, now, f)
      ensures forall p | p !in Artifacts(src).All() :: Lookup(files, p) == Lookup(old(files), p)
      ensures outcome.Restored? ==>
                && Artifacts(src).bak in old(files)
                && Lookup(files, src) == Some(old(files)[Artifacts(src).bak])
      ensures outcome.Clean? || outcome.Cleaned? ==>
                Artifacts(src).bak !in old(files) && Lookup(files, src) == Lookup(old(files), src)
      ensures outcome.ActiveElsewhere? || outcome.Attention? || outcome.RestoreFailed? ==> files == old(files)
    {
      var n := Artifacts(src);
      ArtifactsAreApart(n, n);
      outcome := RecoverFamily(n, me, now, f);
    }

    method RecoverFamily(n: Names, me: nat, now: int, f: Faults) returns (outcome: Outcome)
      requires n.Distinct()
      modifies this
      ensures (files, outcome) == Recover(old(files), n, me, now, f)
      ensures forall p | p !in n.All() :: Lookup(files, p) == Lookup(old(files), p)
      ensures outcome.Restored? ==> n.bak in old(files) && Lookup(files, n.src) == Some(old(files)[n.bak])
      ensures outcome.Clean? || outcome.Cleaned? ==>
                n.bak !in old(files) && Lookup(files, n.src) == Lookup(old(files), n.src)
      ensures outcome.ActiveElsewhere? || outcome.Attention? || outcome.RestoreFailed? ==> files == old(files)
    {
      if n.lock in files && LockIsActive(files[n.lock], me, now) {
        return ActiveElsewhere;
      }
      if n.bak in files {
        if n.src in files && n.lock !in files {
          return Attention;
        }
        if f.restore {
          return RestoreFailed;
        }
        files := files[n.src := files[n.bak]] - {n.bak};
        SafeDelete(n.lock, f.unlock);
        SafeDelete(n.tmp, f.discard);
        return Restored;
      }
      if n.lock in files || n.tmp in files {
        SafeDelete(n.lock, f.unlock);
        SafeDelete(n.tmp, f.discard);
        return Cleaned;
      }
      return Clean;
    }

    /** `sorted(root.rglob(...))`; the order does not matter. */
    method List(pass: Pass) returns (found: seq<Path>)
      ensures forall p :: p in found <==> p in files && Listed(p, pass)
      ensures forall i, k | 0 <= i < k < |found| :: found[i] != found[k]
    {
      found := [];
      var rest := files.Keys;
      while rest != {}
        invariant rest <= files.Keys
        invariant forall p :: p in found <==> p in files && p !in rest && Listed(p, pass)
        invariant forall i, k | 0 <= i < k < |found| :: found[i] != found[k]
      {
        var p :| p in rest;
        if Listed(p, pass) {
          found := found + [p];
        }
        rest := rest - {p};
      }
    }

    /** The loop body of either pass: the family is found from the name. */
    method Visit(p: Path, pass: Pass, me: nat, now: int, ghost t0: Tree, ghost fams: set<Names>, ghost done: set<Names>)
      returns (n: Names)
      requires OfSources(fams) && Layout(fams) && Within(t0, fams) && p in t0 && Listed(p, pass)
      requires PassDone(t0, files, done, fams, pass, me, now)
      requires forall m | m in done :: Sidecar(m, pass) != p
      modifies this
      ensures n in fams && Sidecar(n, pass) == p && PassDone(t0, files, done + {n}, fams, pass, me, now)
    {
      n := Artifacts(SourceOf(p, pass));
      ListedLeadsBack(fams, t0, p, pass);
      PassChangesOnly(files, n, me, now);
      var after := if pass.Backups? then RestoreBackup(files, n, me, now) else RemoveStaleLock(files, n, me, now);
      Advance(t0, files, after, done, n, fams, pass, me, now);
      files := after;
    }

    /** One pass of the scan over everything its glob lists. */
    method Scan(pass: Pass, me: nat, now: int, ghost fams: set<Names>)
      requires OfSources(fams) && Within(files, fams)
      modifies this
      ensures PassDone(old(files), files, fams, fams, pass, me, now)
    {
      SourcesMakeALayout(fams);
      var found := List(pass);
      ghost var done: set<Names> := {};
      var i := 0;
      while i < |found|
        invariant 0 <= i <= |found| && PassDone(old(files), files, done, fams, pass, me, now)
        invariant Visited(found[..i], done, fams, pass)
      {
        VisitsAreNew(found, i, done, fams, pass);
        var n := Visit(found[i], pass, me, now, old(files), fams, done);
        OneMoreVisit(found, i, done, fams, n, pass);
        done := done + {n};
        i := i + 1;
      }
      assert found[..|found|] == found;
      forall n | n in fams && Sidecar(n, pass) in old(files)
        ensures n in done
      {
        SidecarLeadsBack(n, Sidecar(n, pass), pass);
      }
      Complete(old(files), files, done, fams, pass, me, now);
    }

    /** The startup scan, whose passes read the clock at `first` and at `second`.
        For a tree of marker-free sources and their sidecars it leaves the very
        files that single-path recovery of each source leaves at `first`, or at
        `second`, whatever the order, exactly when they agree on every source. */
    method RecoverOrphanedBackups(me: nat, first: int, second: int, ghost fams: set<Names>)
      requires OfSources(fams) && Within(files, fams) && first <= second
      modifies this
      ensures forall n | n in fams ::
                View(files, n) == PassOver(PassOver(View(old(files), n), Backups, me, first), Locks, me, second)
      ensures forall order | Enumerates(order, fams) ::
                files == RecoverEach(old(files), order, me, first) <==>
                forall n | n in fams :: AgreesEarly(View(old(files), n), me, first, second)
      ensures forall order | Enumerates(order, fams) ::
                files == RecoverEach(old(files), order, me, second) <==>
                forall n | n in fams :: AgreesLate(View(old(files), n), me, first, second)
    {
      Scan(Backups, me, first, fams);
      ghost var between := files;
      Scan(Locks, me, second, fams);
      assert forall n | n in fams :: View(between, n) == PassOver(View(old(files), n), Backups, me, first);
      SourcesMakeALayout(fams);
      forall order | Enumerates(order, fams)
        ensures files == RecoverEach(old(files), order, me, first) <==>
                forall n | n in fams :: AgreesEarly(View(old(files), n), me, first, second)
        ensures files == RecoverEach(old(files), order, me, second) <==>
                forall n | n in fams :: AgreesLate(View(old(files), n), me, first, second)
      {
        ScanIsRecoverEach(old(files), files, order, me, first, second, fams);
      }
    }
  }

  /** `done` are exactly the families whose sidecars were seen. */
  ghost predicate Visited(seen: seq<Path>, done: set<Names>, fams: set<Names>, pass: Pass) {
    done <= fams && forall n | n in fams :: n in done <==> Sidecar(n, pass) in seen
  }

  lemma VisitsAreNew(found: seq<Path>, i: nat, done: set<Names>, fams: set<Names>, pass: Pass)
    requires i < |found| && Visited(found[..i], done, fams, pass)
    requires forall a, b | 0 <= a < b < |found| :: found[a] != found[b]
    ensures forall m | m in done :: Sidecar(m, pass) != found[i]
  {
  }

  lemma OneMoreVisit(found: seq<Path>, i: nat, done: set<Names>, fams: set<Names>, n: Names, pass: Pass)
    requires i < |found| && Visited(found[..i], done, fams, pass) && Layout(fams)
    requires n in fams && Sidecar(n, pass) == found[i]
    ensures Visited(found[..i + 1], done + {n}, fams, pass)
  {
    assert found[..i + 1] == found[..i] + [found[i]];
    forall m | m in fams && m != n
      ensures Sidecar(m, pass) != Sidecar(n, pass)
    {
      assert n.All() !! m.All();
      assert Sidecar(m, pass) in m.All() && Sidecar(n, pass) in n.All();
    }
  }
}

/** Crash recovery of the files on disk: what single-path recovery does at claim
    time, what the two passes of the startup scan do, and that over a whole tree
    they leave the same files. The repository keeps the two in step by hand. */
module Recovery {
  import opened Options

  datatype Path = Path(dir: string, name: string)

  /** What a lock file that parses says: its worker, and its last refresh. */
  datatype Stamp = Stamp(worker: Option<nat>, refreshed: int)

  datatype File = File(content: nat, stamp: Option<Stamp>)

  type Tree = map<Path, File>

  const STALE_LOCK_SECONDS: int := 900

  /** A lock of another worker that is still being refreshed. */
  predicate LockIsActive(f: File, me: nat, now: int) {
    f.stamp.Some? && f.stamp.value.worker != Some(me) && now - f.stamp.value.refreshed < STALE_LOCK_SECONDS
  }

  /** A source and its three sidecars. */
  datatype Names = Names(src: Path, lock: Path, tmp: Path, bak: Path)
  {
    function All(): set<Path> { {src, lock, tmp, bak} }

    predicate Distinct() {
      src != lock && src != tmp && src != bak && lock != tmp && lock != bak && tmp != bak
    }
  }

  datatype Outcome = Clean | Restored | Cleaned | ActiveElsewhere | Attention | RestoreFailed

  /** Which of the file operations fail. */
  datatype Faults = Faults(restore: bool, unlock: bool, discard: bool)

  const NO_FAULTS := Faults(false, false, false)

  function Unlink(t: Tree, p: Path, fails: bool): Tree {
    if fails then t else t - {p}
  }

  function Recover(t: Tree, n: Names, me: nat, now: int, f: Faults): (Tree, Outcome) {
    if n.lock in t && LockIsActive(t[n.lock], me, now) then (t, ActiveElsewhere)
    else if n.bak in t then
      if n.src in t && n.lock !in t then (t, Attention)
      else if f.restore then (t, RestoreFailed)
      else (Unlink(Unlink(t[n.src := t[n.bak]] - {n.bak}, n.lock, f.unlock), n.tmp, f.discard), Restored)
    else if n.lock in t || n.tmp in t then
      (Unlink(Unlink(t, n.lock, f.unlock), n.tmp, f.discard), Cleaned)
    else (t, Clean)
  }

  /** The scan's first pass, at one backup. */
  function RestoreBackup(t: Tree, n: Names, me: nat, now: int): Tree {
    if n.bak !in t || (n.lock in t && LockIsActive(t[n.lock], me, now)) || (n.src in t && n.lock !in t)
    then t
    else t[n.src := t[n.bak]] - {n.bak} - {n.lock} - {n.tmp}
  }

  /** The scan's second pass, at one lock. */
  function RemoveStaleLock(t: Tree, n: Names, me: nat, now: int): Tree {
    if n.lock !in t || LockIsActive(t[n.lock], me, now) then t else t - {n.lock} - {n.tmp}
  }

  // ---- One source ----

  datatype Quad = Quad(src: Option<File>, lock: Option<File>, tmp: Option<File>, bak: Option<File>)

  function Lookup(t: Tree, p: Path): Option<File> {
    if p in t then Some(t[p]) else None
  }

  function View(t: Tree, n: Names): Quad {
    Quad(Lookup(t, n.src), Lookup(t, n.lock), Lookup(t, n.tmp), Lookup(t, n.bak))
  }

  predicate Held(q: Quad, me: nat, now: int) {
    q.lock.Some? && LockIsActive(q.lock.value, me, now)
  }

  function RecoverQuad(q: Quad, me: nat, now: int): Quad {
    if Held(q, me, now) then q
    else if q.bak.Some? then
      if q.src.Some? && q.lock.None? then q else Quad(q.bak, None, None, None)
    else q.(lock := None, tmp := None)
  }

  datatype Pass = Backups | Locks

  function PassOver(q: Quad, pass: Pass, me: nat, now: int): Quad {
    if Held(q, me, now) then q
    else match pass
      case Backups => if q.bak.None? || (q.src.Some? && q.lock.None?) then q else Quad(q.bak, None, None, None)
      case Locks => if q.lock.None? then q else q.(lock := None, tmp := None)
  }

  /** A temporary output with neither a lock nor a backup beside it. */
  predicate StrayTmp(q: Quad) {
    q.tmp.Some? && q.lock.None? && q.bak.None?
  }

  /** The two passes do what single-path recovery does, exactly when there is
      no stray temporary output. */
  lemma TwoPassesAreOneRecovery(q: Quad, me: nat, now: int)
    ensures PassOver(PassOver(q, Backups, me, now), Locks, me, now) == RecoverQuad(q, me, now) <==> !StrayTmp(q)
  {
  }

  /** The lock is respected by the first pass and stale by the second. */
  predicate ExpiresBetween(q: Quad, me: nat, first: int, second: int) {
    Held(q, me, first) && !Held(q, me, second)
  }

  /** The passes read the clock separately, the second no earlier than the first.
      Together they do what single-path recovery does at the first reading exactly
      when nothing is stray and the lock does not expire in between, and what it
      does at the second reading exactly when nothing is stray and no lock over a
      backup expires in between. */
  lemma TwoClocks(q: Quad, me: nat, first: int, second: int)
    requires first <= second
    ensures var scanned := PassOver(PassOver(q, Backups, me, first), Locks, me, second);
            && (scanned == RecoverQuad(q, me, first) <==> AgreesEarly(q, me, first, second))
            && (scanned == RecoverQuad(q, me, second) <==> AgreesLate(q, me, first, second))
  {
  }

  predicate AgreesEarly(q: Quad, me: nat, first: int, second: int) {
    !StrayTmp(q) && !ExpiresBetween(q, me, first, second)
  }

  predicate AgreesLate(q: Quad, me: nat, first: int, second: int) {
    !StrayTmp(q) && !(ExpiresBetween(q, me, first, second) && q.bak.Some?)
  }

  /** The failing case: what remains (an unconfirmed encode, its backup, no lock)
      reads as a finished job, and neither reading of the clock gives it. */
  lemma LockExpiringBetweenPasses(q: Quad, me: nat, first: int, second: int)
    requires first <= second && ExpiresBetween(q, me, first, second) && q.bak.Some?
    ensures var scanned := PassOver(PassOver(q, Backups, me, first), Locks, me, second);
            && scanned == Quad(q.src, None, None, q.bak)
            && scanned != RecoverQuad(q, me, first) && scanned != RecoverQuad(q, me, second)
  {
  }

  lemma SomeLockExpires() returns (q: Quad)
    ensures q.bak.Some? && ExpiresBetween(q, 1, 899, 900)
  {
    q := Quad(Some(File(2, None)), Some(File(0, Some(Stamp(Some(7), 0)))), None, Some(File(1, None)));
  }

  // ---- Many sources ----

  /** The families of a set of sources do not overlap. */
  ghost predicate Layout(fams: set<Names>) {
    && (forall n | n in fams :: n.Distinct())
    && (forall n, m | n in fams && m in fams && n != m :: n.All() !! m.All())
  }

  /** Every file belongs to one of the families. */
  ghost predicate Within(t: Tree, fams: set<Names>) {
    forall p | p in t :: exists n :: n in fams && p in n.All()
  }

  /** `t'` differs from `t` within the family `n` only, where it shows `q`. */
  ghost predicate ChangesOnly(t: Tree, t': Tree, n: Names, q: Quad) {
    && View(t', n) == q
    && forall p | p !in n.All() :: Lookup(t', p) == Lookup(t, p)
  }

  lemma RecoverChangesOnly(t: Tree, n: Names, me: nat, now: int)
    requires n.Distinct()
    ensures ChangesOnly(t, Recover(t, n, me, now, NO_FAULTS).0, n, RecoverQuad(View(t, n), me, now))
  {
  }

  lemma PassChangesOnly(t: Tree, n: Names, me: nat, now: int)
    requires n.Distinct()
    ensures ChangesOnly(t, RestoreBackup(t, n, me, now), n, PassOver(View(t, n), Backups, me, now))
    ensures ChangesOnly(t, RemoveStaleLock(t, n, me, now), n, PassOver(View(t, n), Locks, me, now))
  {
  }

  lemma OthersKeepTheirView(t: Tree, t': Tree, n: Names, q: Quad, m: Names)
    requires ChangesOnly(t, t', n, q) && n.All() !! m.All()
    ensures View(t', m) == View(t, m)
  {
    assert m.src in m.All() && m.lock in m.All() && m.tmp in m.All() && m.bak in m.All();
  }

  lemma StaysWithin(t: Tree, t': Tree, n: Names, q: Quad, fams: set<Names>)
    requires Within(t, fams) && n in fams && ChangesOnly(t, t', n, q)
    ensures Within(t', fams)
  {
    forall p | p in t'
      ensures exists m :: m in fams && p in m.All()
    {
      if p !in n.All() { assert Lookup(t', p) == Lookup(t, p); }
    }
  }

  lemma SamePath(t: Tree, t': Tree, n: Names, p: Path)
    requires p in n.All() && View(t, n) == View(t', n)
    ensures Lookup(t, p) == Lookup(t', p)
  {
    var q, q' := View(t, n), View(t', n);
    assert q.src == q'.src && q.lock == q'.lock && q.tmp == q'.tmp && q.bak == q'.bak;
  }

  lemma SameViewsSameTree(t: Tree, t': Tree, fams: set<Names>)
    requires Within(t, fams) && Within(t', fams)
    requires forall n | n in fams :: View(t, n) == View(t', n)
    ensures t == t'
  {
    forall p | p in t || p in t'
      ensures Lookup(t, p) == Lookup(t', p)
    {
      var n :| n in fams && p in n.All();
      SamePath(t, t', n, p);
    }
    SameLookups(t, t');
  }

  lemma SameLookups(t: Tree, t': Tree)
    requires forall p | p in t || p in t' :: Lookup(t, p) == Lookup(t', p)
    ensures t == t'
  {
    forall p ensures p in t <==> p in t' {
      assert p in t || p in t' ==> Lookup(t, p) == Lookup(t', p);
    }
    forall p | p in t ensures t[p] == t'[p] {
      assert Lookup(t, p) == Lookup(t', p);
    }
  }

  /** Recovering one source after another. */
  function RecoverEach(t: Tree, order: seq<Names>, me: nat, now: int): Tree
    decreases |order|
  {
    if order == [] then t
    else RecoverEach(Recover(t, order[0], me, now, NO_FAULTS).0, order[1..], me, now)
  }

  ghost predicate NoRepeats(order: seq<Names>) {
    forall i, k | 0 <= i < k < |order| :: order[i] != order[k]
  }

  ghost predicate Enumerates(order: seq<Names>, fams: set<Names>) {
    (forall n :: n in order <==> n in fams) && NoRepeats(order)
  }

  lemma {:induction false} RecoverEachView(t: Tree, order: seq<Names>, me: nat, now: int, fams: set<Names>, n: Names)
    requires Layout(fams) && Within(t, fams) && (forall m | m in order :: m in fams) && NoRepeats(order) && n in fams
    ensures Within(RecoverEach(t, order, me, now), fams)
    ensures View(RecoverEach(t, order, me, now), n) ==
            if n in order then RecoverQuad(View(t, n), me, now) else View(t, n)
    decreases |order|
  {
    if order != [] {
      var first := order[0];
      var t' := Recover(t, first, me, now, NO_FAULTS).0;
      RecoverChangesOnly(t, first, me, now);
      StaysWithin(t, t', first, RecoverQuad(View(t, first), me, now), fams);
      RecoverEachView(t', order[1..], me, now, fams, n);
      if n != first {
        OthersKeepTheirView(t, t', first, RecoverQuad(View(t, first), me, now), n);
      }
    }
  }

  /** The whole-tree result: two passes over every source leave the files that
      single-path recovery leaves, taken in any order, exactly when the two agree
      on every source; for either reading of the clock. */
  lemma ScanIsRecoverEach(t0: Tree, t: Tree, order: seq<Names>, me: nat, first: int, second: int, fams: set<Names>)
    requires first <= second
    requires Layout(fams) && Within(t0, fams) && Within(t, fams) && Enumerates(order, fams)
    requires forall n | n in fams ::
               View(t, n) == PassOver(PassOver(View(t0, n), Backups, me, first), Locks, me, second)
    ensures t == RecoverEach(t0, order, me, first) <==>
            forall n | n in fams :: AgreesEarly(View(t0, n), me, first, second)
    ensures t == RecoverEach(t0, order, me, second) <==>
            forall n | n in fams :: AgreesLate(View(t0, n), me, first, second)
  {
    EachStaysWithin(t0, order, me, first, fams);
    EachStaysWithin(t0, order, me, second, fams);
    TreesAgree(t, RecoverEach(t0, order, me, first), fams);
    TreesAgree(t, RecoverEach(t0, order, me, second), fams);
    forall n | n in fams
      ensures View(t, n) == View(RecoverEach(t0, order, me, first), n) <==> AgreesEarly(View(t0, n), me, first, second)
      ensures View(t, n) == View(RecoverEach(t0, order, me, second), n) <==> AgreesLate(View(t0, n), me, first, second)
    {
      RecoverEachView(t0, order, me, first, fams, n);
      RecoverEachView(t0, order, me, second, fams, n);
      TwoClocks(View(t0, n), me, first, second);
    }
  }

  lemma EachStaysWithin(t0: Tree, order: seq<Names>, me: nat, now: int, fams: set<Names>)
    requires Layout(fams) && Within(t0, fams) && Enumerates(order, fams)
    ensures Within(RecoverEach(t0, order, me, now), fams)
  {
    if order != [] {
      assert order[0] in fams;
      RecoverEachView(t0, order, me, now, fams, order[0]);
    }
  }

  lemma TreesAgree(t: Tree, t': Tree, fams: set<Names>)
    requires Within(t, fams) && Within(t', fams)
    ensures t == t' <==> forall n | n in fams :: View(t, n) == View(t', n)
  {
    if forall n | n in fams :: View(t, n) == View(t', n) { SameViewsSameTree(t, t', fams); }
  }

  // ---- A pass in progress ----

  /** The pass has been over the families `done` and has not touched the rest. */
  ghost predicate PassDone(t0: Tree, t: Tree, done: set<Names>, fams: set<Names>, pass: Pass, me: nat, now: int) {
    && Within(t, fams)
    && forall n | n in fams :: View(t, n) == if n in done then PassOver(View(t0, n), pass, me, now) else View(t0, n)
  }

  lemma Advance(t0: Tree, t: Tree, t': Tree, done: set<Names>, n: Names, fams: set<Names>, pass: Pass, me: nat,
      now: int)
    requires Layout(fams) && PassDone(t0, t, done, fams, pass, me, now) && n in fams && n !in done
    requires ChangesOnly(t, t', n, PassOver(View(t, n), pass, me, now))
    ensures PassDone(t0, t', done + {n}, fams, pass, me, now)
  {
    var q := PassOver(View(t, n), pass, me, now);
    StaysWithin(t, t', n, q, fams);
    forall m | m in fams && m != n
      ensures View(t', m) == View(t, m)
    {
      OthersKeepTheirView(t, t', n, q, m);
    }
  }

  function Sidecar(n: Names, pass: Pass): Path {
    match pass case Backups => n.bak case Locks => n.lock
  }

  /** A pass that has visited every sidecar it looks for is complete. */
  lemma Complete(t0: Tree, t: Tree, done: set<Names>, fams: set<Names>, pass: Pass, me: nat, now: int)
    requires PassDone(t0, t, done, fams, pass, me, now)
    requires forall n | n in fams && Sidecar(n, pass) in t0 :: n in done
    ensures PassDone(t0, t, fams, fams, pass, me, now)
  {
  }
}

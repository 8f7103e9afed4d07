/** Never lose a file: the owned source transaction (lock, encode, swap, confirm,
    clean up, unlock), its rollback, and recovery, one file operation at a time,
    with a crash allowed between any two of them and any number of attempts. */
module Swap {
  import opened Options
  import R = Recovery

  type Content = nat
  type Pid = nat

  /** A lock file carries the job and the worker that made it, and the time of
      its last refresh. */
  datatype Key = Key(job: nat, worker: nat)
  datatype Lock = Lock(key: Key, refreshed: int)

  /** The four names of one source. */
  datatype Disk = Disk(src: Option<Content>, tmp: Option<Content>, bak: Option<Content>, lock: Option<Lock>)

  datatype Phase =
    | Encoding
    | MoveAway      // the original is about to become the backup
    | MoveIn        // the output is about to become the original
    | PutBack       // that failed; the backup is about to be put back
    | Swapped       // the output is in place, not yet confirmed
    | Confirmed     // it passed; the backup is about to be deleted
    | Settling      // any exit: roll back what was not confirmed
    | Discarding    // the temporary output is about to be deleted
    | Unlocking     // the lock is about to be deleted

  datatype Txn = Txn(key: Key, phase: Phase, mutating: bool, confirmed: bool)

  /** `accepted` is the content that must not be lost: the source, or an encode
      whose backup was deleted after CONFIRM. `verified` is what CONFIRM passed. */
  datatype State = State(disk: Disk, live: map<Pid, Txn>, now: int, accepted: Content, verified: set<Content>)

  function Start(c: Content): State {
    State(Disk(Some(c), None, None, None), map[], 0, c, {})
  }

  /** Recovery runs as one step with respect to the others, but may be cut short:
      it does at most `ops` file operations. */
  datatype Step =
    | Acquire(p: Pid, key: Key)
    | Encode(p: Pid, output: Content)
    | BeginSwap(p: Pid)
    | Abort(p: Pid)
    | Advance(p: Pid, ok: bool)
    | Confirm(p: Pid, passed: bool)
    | Crash(p: Pid)
      /** The pipeline refreshes its lock. */
    | Touch(p: Pid)
    | Tick(seconds: nat)
      /** Worker `me` recovers the path, or its startup scan comes by. */
    | Recover(me: nat, ops: nat, restores: bool, unlocks: bool, discards: bool)
    | ScanBackup(me: nat, ops: nat, restores: bool, unlocks: bool, discards: bool)
    | ScanLock(me: nat, ops: nat, unlocks: bool, discards: bool)

  /** Another worker's lock that is still fresh. */
  predicate Active(d: Disk, me: nat, now: int) {
    d.lock.Some? && d.lock.value.key.worker != me && now - d.lock.value.refreshed < R.STALE_LOCK_SECONDS
  }

  /** A worker does one thing at a time: it recovers a path before its own
      pipeline on it, not during. */
  predicate Busy(s: State, me: nat) {
    exists p :: p in s.live && s.live[p].key.worker == me
  }

  predicate IsRecovery(st: Step) {
    st.Recover? || st.ScanBackup? || st.ScanLock?
  }

  /** What recovery relies on: the lock of a running pipeline is fresh to whoever
      comes by. */
  predicate Respected(s: State, st: Step) {
    IsRecovery(st) && s.live != map[] && !Busy(s, st.me) ==> Active(s.disk, st.me, s.now)
  }

  function Move(s: State, p: Pid, phase: Phase): State
    requires p in s.live
  {
    s.(live := s.live[p := s.live[p].(phase := phase)])
  }

  function End(s: State, p: Pid): State {
    s.(live := s.live - {p})
  }

  /** The next operation of transaction `p`; `ok` is false when it errors. */
  function Progress(s: State, p: Pid, ok: bool): State
    requires p in s.live
  {
    var d, x := s.disk, s.live[p];
    match x.phase
    case MoveAway =>
      if ok && d.src.Some? then Move(s, p, MoveIn).(disk := d.(bak := d.src, src := None)) else Move(s, p, Settling)
    case MoveIn =>
      if ok && d.tmp.Some? then Move(s, p, Swapped).(disk := d.(src := d.tmp, tmp := None)) else Move(s, p, PutBack)
    case PutBack =>
      if ok && d.bak.Some? then Move(s, p, Settling).(disk := d.(src := d.bak, bak := None)) else Move(s, p, Settling)
    case Confirmed =>
      var closed := s.(live := s.live[p := x.(phase := Settling, confirmed := true)]);
      if ok && d.bak.Some? && d.src.Some? then closed.(disk := d.(bak := None), accepted := d.src.value) else closed
    case Settling =>
      if x.mutating && !x.confirmed && d.bak.Some? then
        if ok then Move(s, p, Discarding).(disk := d.(src := d.bak, bak := None)) else End(s, p)
      else Move(s, p, Discarding)
    case Discarding =>
      if d.lock.None? || d.lock.value.key != x.key then End(s, p)
      else Move(s, p, Unlocking).(disk := if ok then d.(tmp := None) else d)
    case Unlocking => End(s, p).(disk := if ok then d.(lock := None) else d)
    case _ => s
  }

  /** Operations 2 and 3 of a recovery that has `ops` left. */
  function Tidy(d: Disk, ops: nat, unlocks: bool, discards: bool): Disk {
    var unlocked := if ops >= 1 && unlocks then d.(lock := None) else d;
    if ops >= 2 && discards then unlocked.(tmp := None) else unlocked
  }

  /** Recovery cut short after `ops` operations; None when it does not get to
      answer. */
  function Recovery(d: Disk, ops: nat, active: bool, restores: bool, unlocks: bool, discards: bool)
    : (Disk, Option<R.Outcome>)
  {
    if d.lock.Some? && active then (d, Some(R.ActiveElsewhere))
    else if d.bak.Some? then
      if d.src.Some? && d.lock.None? then (d, Some(R.Attention))
      else if ops == 0 then (d, None)
      else if !restores then (d, Some(R.RestoreFailed))
      else (Tidy(d.(src := d.bak, bak := None), ops - 1, unlocks, discards), if ops < 3 then None else Some(R.Restored))
    else if d.lock.Some? || d.tmp.Some? then
      (Tidy(d, ops, unlocks, discards), if ops < 2 then None else Some(R.Cleaned))
    else (d, Some(R.Clean))
  }

  /** The disk of this machine is what a tree shows of one source. */
  predicate Shows(d: Disk, q: R.Quad) {
    && d.src == Contents(q.src) && d.tmp == Contents(q.tmp) && d.bak == Contents(q.bak)
    && d.lock.Some? == q.lock.Some?
    && (d.lock.Some? ==> q.lock.value.stamp == Some(R.Stamp(Some(d.lock.value.key.worker), d.lock.value.refreshed)))
  }

  function Contents(f: Option<R.File>): Option<Content> {
    if f.Some? then Some(f.value.content) else None
  }

  /** Not cut short, recovery here is the recovery of the tree. */
  lemma MachineRecovery(d: Disk, t: R.Tree, n: R.Names, me: nat, now: int, f: R.Faults)
    requires n.Distinct() && Shows(d, R.View(t, n))
    ensures var (d', outcome) := Recovery(d, 3, Active(d, me, now), !f.restore, !f.unlock, !f.discard);
            var (t', outcome') := R.Recover(t, n, me, now, f);
            Shows(d', R.View(t', n)) && outcome == Some(outcome')
  {
  }

  function Next(s: State, st: Step): State {
    match st
    case Acquire(p, key) =>
      if p in s.live || s.disk.lock.Some? then s
      else s.(disk := s.disk.(lock := Some(Lock(key, s.now))), live := s.live[p := Txn(key, Encoding, false, false)])
    case Encode(p, output) =>
      if p in s.live && s.live[p].phase.Encoding? then s.(disk := s.disk.(tmp := Some(output))) else s
    case BeginSwap(p) =>
      if !(p in s.live && s.live[p].phase.Encoding?) then s
      else if s.disk.bak.Some? then Move(s, p, Settling)
      else s.(live := s.live[p := s.live[p].(phase := MoveAway, mutating := true)])
    case Abort(p) =>
      if p in s.live && (s.live[p].phase.Encoding? || s.live[p].phase.Swapped?) then Move(s, p, Settling) else s
    case Advance(p, ok) =>
      if p in s.live then Progress(s, p, ok) else s
    case Confirm(p, passed) =>
      if !(p in s.live && s.live[p].phase.Swapped?) then s
      else if passed && s.disk.src.Some? then
        Move(s, p, Confirmed).(verified := s.verified + {s.disk.src.value})
      else Move(s, p, Settling)
    case Crash(p) => End(s, p)
    case Touch(p) =>
      if p in s.live && s.disk.lock.Some? && s.disk.lock.value.key == s.live[p].key then
        s.(disk := s.disk.(lock := Some(Lock(s.live[p].key, s.now))))
      else s
    case Tick(seconds) => s.(now := s.now + seconds)
    case Recover(me, ops, restores, unlocks, discards) =>
      if Busy(s, me) then s
      else s.(disk := Recovery(s.disk, ops, Active(s.disk, me, s.now), restores, unlocks, discards).0)
    case ScanBackup(me, ops, restores, unlocks, discards) =>
      if Busy(s, me) || s.disk.bak.None? then s
      else s.(disk := Recovery(s.disk, ops, Active(s.disk, me, s.now), restores, unlocks, discards).0)
    case ScanLock(me, ops, unlocks, discards) =>
      if Busy(s, me) || s.disk.lock.None? || Active(s.disk, me, s.now) then s
      else if !unlocks then s
      else s.(disk := Tidy(s.disk, ops, unlocks, discards))
  }

  // ---- The invariant ----

  /** The accepted content is on disk: at the backup name when there is a backup,
      which then is nothing else, and at the source name when there is none. */
  ghost predicate Kept(d: Disk, accepted: Content) {
    if d.bak.Some? then d.bak.value == accepted else d.src == Some(accepted)
  }

  ghost predicate TxnFits(s: State, x: Txn) {
    var d := s.disk;
    && d.lock.Some? && d.lock.value.key == x.key
    && (x.phase.Encoding? ==> !x.mutating && !x.confirmed)
    && (x.phase.MoveAway? ==> x.mutating && !x.confirmed && d.bak.None?)
    && (x.phase.MoveIn? || x.phase.PutBack? ==> x.mutating && !x.confirmed && d.bak.Some? && d.src.None?)
    && (x.phase.Swapped? ==> x.mutating && !x.confirmed && d.bak.Some? && d.src.Some?)
    && (x.phase.Discarding? || x.phase.Unlocking? ==> x.mutating && !x.confirmed ==> d.bak.None?)
    && (x.phase.Confirmed? ==> x.mutating && !x.confirmed && d.bak.Some? && d.src.Some? && d.src.value in s.verified)
  }

  ghost predicate Inv(s: State, original: Content) {
    && Kept(s.disk, s.accepted)
    && (s.accepted == original || s.accepted in s.verified)
    && (forall p, q | p in s.live && q in s.live :: p == q)
    && (forall p | p in s.live :: TxnFits(s, s.live[p]))
  }

  lemma StepKeepsInv(s: State, st: Step, original: Content)
    requires Inv(s, original) && Respected(s, st)
    ensures Inv(Next(s, st), original)
  {
    if st.Advance? {
      AdvanceKeepsInv(s, st, original);
    } else if IsRecovery(st) {
      RecoveryKeepsInv(s, st, original);
    } else {
      OthersKeepInv(s, st, original);
    }
  }

  lemma AdvanceKeepsInv(s: State, st: Step, original: Content)
    requires Inv(s, original) && st.Advance?
    ensures Inv(Next(s, st), original)
  {
  }

  lemma RecoveryKeepsInv(s: State, st: Step, original: Content)
    requires Inv(s, original) && IsRecovery(st) && Respected(s, st)
    ensures Inv(Next(s, st), original)
    ensures s.live != map[] ==> Next(s, st) == s
  {
    if s.live != map[] {
      var p :| p in s.live;
      assert TxnFits(s, s.live[p]);
    }
  }

  lemma OthersKeepInv(s: State, st: Step, original: Content)
    requires Inv(s, original) && !st.Advance? && !IsRecovery(st)
    ensures Inv(Next(s, st), original)
  {
  }

  // ---- Runs ----

  datatype Trace = Trace(states: seq<State>, steps: seq<Step>)

  ghost predicate Run(tr: Trace, original: Content) {
    && |tr.states| == |tr.steps| + 1
    && tr.states[0] == Start(original)
    && forall i | 0 <= i < |tr.steps| :: tr.states[i + 1] == Next(tr.states[i], tr.steps[i])
  }

  /** A run in which every recovery finds the lock of a running pipeline fresh. */
  ghost predicate RespectedRun(tr: Trace, original: Content) {
    Run(tr, original) && forall i | 0 <= i < |tr.steps| :: Respected(tr.states[i], tr.steps[i])
  }

  lemma {:induction false} InvHolds(tr: Trace, original: Content, n: nat)
    requires RespectedRun(tr, original) && n < |tr.states|
    ensures Inv(tr.states[n], original)
  {
    if n > 0 {
      InvHolds(tr, original, n - 1);
      StepKeepsInv(tr.states[n - 1], tr.steps[n - 1], original);
    }
  }

  /** No file is ever lost: at every moment of every run the accepted content is
      at the source name or at the backup name, and it is the original or an
      encode that passed CONFIRM at the source name. */
  lemma NoFileIsEverLost(tr: Trace, original: Content, n: nat)
    requires RespectedRun(tr, original) && n < |tr.states|
    ensures var s := tr.states[n];
            && (s.disk.src == Some(s.accepted) || s.disk.bak == Some(s.accepted))
            && (s.accepted == original || s.accepted in s.verified)
            && |s.live| <= 1
  {
    InvHolds(tr, original, n);
    AtMostOne(tr.states[n].live);
  }

  lemma AtMostOne(live: map<Pid, Txn>)
    requires forall p, q | p in live && q in live :: p == q
    ensures |live| <= 1
  {
    if live != map[] {
      var p :| p in live;
      assert live.Keys == {p};
      assert |live| == |live.Keys|;
    }
  }

  /** The three fates of a backup. */
  ghost predicate BackupFate(s: State, s': State) {
    || s'.disk.bak == s.disk.bak
    || (s'.disk.bak.None? && s'.disk.src == s.disk.bak && s'.accepted == s.accepted)
    || (s'.disk.bak.None? && s'.disk.src == s.disk.src == Some(s'.accepted) && s'.accepted in s.verified)
  }

  lemma BackupStep(s: State, st: Step, original: Content)
    requires Inv(s, original) && s.disk.bak.Some?
    ensures BackupFate(s, Next(s, st))
  {
    if IsRecovery(st) { RecoveryFate(s, st); } else if st.Advance? { AdvanceFate(s, st, original); }
  }

  lemma RecoveryFate(s: State, st: Step)
    requires IsRecovery(st) && s.disk.bak.Some?
    ensures BackupFate(s, Next(s, st))
  {
  }

  lemma AdvanceFate(s: State, st: Step, original: Content)
    requires Inv(s, original) && st.Advance? && s.disk.bak.Some?
    ensures BackupFate(s, Next(s, st))
  {
    if st.p in s.live { assert TxnFits(s, s.live[st.p]); }
  }

  /** A backup is never overwritten: it stays as it is, or it goes. And it goes
      only back to the source name, or for good once its successor is accepted. */
  lemma BackupIsNeverOverwritten(tr: Trace, original: Content, n: nat)
    requires RespectedRun(tr, original) && n < |tr.steps| && tr.states[n].disk.bak.Some?
    ensures BackupFate(tr.states[n], tr.states[n + 1])
  {
    InvHolds(tr, original, n);
    BackupStep(tr.states[n], tr.steps[n], original);
  }

  /** A recovery that answers clean, cleaned or restored leaves the accepted
      content at the source name. */
  lemma RecoveryLeavesTheAccepted(tr: Trace, original: Content, n: nat)
    requires RespectedRun(tr, original) && n < |tr.steps| && tr.steps[n].Recover? && !Busy(tr.states[n], tr.steps[n].me)
    ensures var s, st := tr.states[n], tr.steps[n];
            var outcome := Recovery(s.disk, st.ops, Active(s.disk, st.me, s.now), st.restores, st.unlocks,
                st.discards).1;
            && tr.states[n + 1].accepted == s.accepted
            && (outcome in {Some(R.Clean), Some(R.Cleaned), Some(R.Restored)} ==>
                  tr.states[n + 1].disk.src == Some(s.accepted) && tr.states[n + 1].disk.bak.None?)
  {
    InvHolds(tr, original, n);
  }

  /** A transaction that ends by itself ends at the unlock, and then an
      unconfirmed swap has been rolled back: the accepted content is at the source
      name; or its rollback failed, and it leaves the lock over a backup that is
      the accepted content. */
  lemma ReleaseLeavesTheAccepted(tr: Trace, original: Content, n: nat, p: Pid)
    requires RespectedRun(tr, original) && n < |tr.steps| && tr.steps[n].Advance? && tr.steps[n].p == p
    requires p in tr.states[n].live && p !in tr.states[n + 1].live
    ensures var x, d' := tr.states[n].live[p], tr.states[n + 1].disk;
            || (x.phase.Unlocking? && (x.mutating && !x.confirmed ==>
                  d'.src == Some(tr.states[n + 1].accepted) && d'.bak.None?))
            || (x.phase.Settling? && x.mutating && !x.confirmed && d'.lock.Some? && d'.lock.value.key == x.key &&
                d'.bak == Some(tr.states[n + 1].accepted))
  {
    InvHolds(tr, original, n);
  }

  // ---- A swap that passed CONFIRM stays ----

  /** The content `x` passed; its predecessor is still the backup. */
  ghost predicate Passed(s: State, p: Pid, x: Content, former: Content) {
    && p in s.live && s.live[p].phase.Confirmed?
    && s.disk.src == Some(x) && s.disk.bak == Some(former) && s.accepted == former
  }

  /** What the end of such a transaction leaves, with the backup deleted or not. */
  ghost predicate Replaced(s: State, x: Content, former: Content, deleted: bool) {
    && s.disk.src == Some(x)
    && (deleted ==> s.disk.bak.None? && s.accepted == x)
    && (!deleted ==> s.disk.bak == Some(former) && s.accepted == former)
  }

  predicate Closing(s: State, p: Pid) {
    && p in s.live && s.live[p].confirmed
    && (s.live[p].phase.Settling? || s.live[p].phase.Discarding? || s.live[p].phase.Unlocking?)
  }

  lemma PassedStays(s: State, st: Step, p: Pid, x: Content, former: Content, original: Content)
    requires Inv(s, original) && Respected(s, st) && Passed(s, p, x, former) && p in Next(s, st).live
    ensures if st.Advance? && st.p == p then Closing(Next(s, st), p) && Replaced(Next(s, st), x, former, st.ok)
            else Passed(Next(s, st), p, x, former)
  {
    if IsRecovery(st) { RecoveryKeepsInv(s, st, original); }
    assert TxnFits(s, s.live[p]);
  }

  lemma ReplacedStays(s: State, st: Step, p: Pid, x: Content, former: Content, deleted: bool, original: Content)
    requires Inv(s, original) && Respected(s, st) && Closing(s, p) && Replaced(s, x, former, deleted)
    ensures Replaced(Next(s, st), x, former, deleted)
    ensures p in Next(s, st).live ==> Closing(Next(s, st), p)
  {
    if IsRecovery(st) { RecoveryKeepsInv(s, st, original); }
    assert TxnFits(s, s.live[p]);
  }

  /** Where a transaction whose CONFIRM passed at step `c` stands at state `n`: before
      its backup is deleted, or after that was done at step `d`. */
  ghost predicate PassedBy(tr: Trace, c: nat, d: nat, n: nat, p: Pid, x: Content, former: Content)
    requires c < n < |tr.states| && |tr.states| == |tr.steps| + 1
  {
    if d < n then
      && c < d && tr.steps[d].Advance? && tr.steps[d].p == p && p in tr.states[d].live
      && tr.states[d].live[p].phase.Confirmed?
      && Closing(tr.states[n], p) && Replaced(tr.states[n], x, former, tr.steps[d].ok)
    else Passed(tr.states[n], p, x, former)
  }

  lemma PassedOneOn(tr: Trace, original: Content, c: nat, d: nat, n: nat, p: Pid, x: Content, former: Content)
      returns (d': nat)
    requires RespectedRun(tr, original) && c < n < |tr.steps| && p in tr.states[n + 1].live
    requires PassedBy(tr, c, d, n, p, x, former)
    ensures PassedBy(tr, c, d', n + 1, p, x, former)
  {
    InvHolds(tr, original, n);
    var s, st := tr.states[n], tr.steps[n];
    if d < n {
      d' := d;
      ReplacedStays(s, st, p, x, former, tr.steps[d].ok, original);
    } else {
      PassedStays(s, st, p, x, former, original);
      d' := if st.Advance? && st.p == p then n else n + 1;
    }
  }

  lemma PassedAtFirst(tr: Trace, original: Content, c: nat, p: Pid)
    requires RespectedRun(tr, original) && c < |tr.steps| && tr.steps[c] == Confirm(p, true)
    requires p in tr.states[c].live && tr.states[c].live[p].phase.Swapped?
    ensures tr.states[c].disk.src.Some?
    ensures Passed(tr.states[c + 1], p, tr.states[c].disk.src.value, tr.states[c].accepted)
  {
    InvHolds(tr, original, c);
    assert TxnFits(tr.states[c], tr.states[c].live[p]);
    assert tr.states[c + 1] == Next(tr.states[c], tr.steps[c]);
  }

  lemma {:induction false} PassedUntil(tr: Trace, original: Content, c: nat, n: nat, p: Pid, x: Content,
                                       former: Content)
      returns (d: nat)
    requires RespectedRun(tr, original) && c < n < |tr.states| && Passed(tr.states[c + 1], p, x, former)
    requires forall m | c < m <= n :: p in tr.states[m].live
    ensures PassedBy(tr, c, d, n, p, x, former)
    decreases n
  {
    if c + 1 < n {
      d := PassedUntil(tr, original, c, n - 1, p, x, former);
      d := PassedOneOn(tr, original, c, d, n - 1, p, x, former);
    } else {
      d := n;
    }
  }

  /** A transaction whose CONFIRM passed and that ends by itself leaves the content
      that passed at the source name. If the delete of the backup at step `d` went
      through there is no backup and that content is the accepted one; otherwise the
      backup is still the former accepted content. */
  lemma ConfirmedSwapStays(tr: Trace, original: Content, c: nat, e: nat, p: Pid) returns (d: nat)
    requires RespectedRun(tr, original) && c < e < |tr.steps| && tr.steps[c] == Confirm(p, true)
    requires p in tr.states[c].live && tr.states[c].live[p].phase.Swapped?
    requires (forall m | c < m <= e :: p in tr.states[m].live) && p !in tr.states[e + 1].live
    requires tr.steps[e].Advance? && tr.steps[e].p == p
    ensures tr.states[c].disk.src.Some? && c < d < e && tr.steps[d].Advance? && tr.steps[d].p == p
    ensures p in tr.states[d].live && tr.states[d].live[p].phase.Confirmed?
    ensures var end := tr.states[e + 1];
            && end.disk.src == tr.states[c].disk.src
            && (tr.steps[d].ok ==> end.disk.bak.None? && Some(end.accepted) == tr.states[c].disk.src)
            && (!tr.steps[d].ok ==>
                  end.disk.bak == Some(tr.states[c].accepted) && end.accepted == tr.states[c].accepted)
  {
    PassedAtFirst(tr, original, c, p);
    var x, former := tr.states[c].disk.src.value, tr.states[c].accepted;
    d := PassedUntil(tr, original, c, e, p, x, former);
    InvHolds(tr, original, e);
    assert d < e ==> Closing(tr.states[e], p);
    if d < e { ReplacedStays(tr.states[e], tr.steps[e], p, x, former, tr.steps[d].ok, original); }
    assert tr.states[e + 1] == Next(tr.states[e], tr.steps[e]);
  }

  /** When everything goes well a pipeline replaces the file: from any quiet state
      the swap puts the encode at the source name and the original at the backup
      name, */
  lemma GoodSwap(s: State, p: Pid, key: Key, output: Content)
    requires s.live == map[] && s.disk.lock.None? && s.disk.bak.None? && s.disk.src.Some?
    ensures var encoded := Next(Next(s, Acquire(p, key)), Encode(p, output));
            var swapped := Next(Next(Next(encoded, BeginSwap(p)), Advance(p, true)), Advance(p, true));
            && swapped.disk == Disk(Some(output), None, s.disk.src, Some(Lock(key, s.now)))
            && swapped.live == map[p := Txn(key, Swapped, true, false)]
            && swapped.accepted == s.accepted
  {
    var s1 := Next(s, Acquire(p, key));
    assert s1.live == map[p := Txn(key, Encoding, false, false)];
    var s3 := Next(Next(s1, Encode(p, output)), BeginSwap(p));
    assert s3.live == map[p := Txn(key, MoveAway, true, false)];
    var s4 := Next(s3, Advance(p, true));
    assert s4.live == map[p := Txn(key, MoveIn, true, false)];
  }

  /** and when it is confirmed the encode is accepted and nothing else is left. */
  lemma GoodFinish(s: State, p: Pid, key: Key)
    requires s.live == map[p := Txn(key, Swapped, true, false)] && s.disk.lock.Some? && s.disk.lock.value.key == key
    requires s.disk.src.Some? && s.disk.bak.Some?
    ensures var closed := Next(Next(s, Confirm(p, true)), Advance(p, true));
            var end := Next(Next(Next(closed, Advance(p, true)), Advance(p, true)), Advance(p, true));
            end.disk == Disk(s.disk.src, None, None, None) && Some(end.accepted) == s.disk.src && end.live == map[]
  {
    var s1 := Next(s, Confirm(p, true));
    assert s1.live == map[p := Txn(key, Confirmed, true, false)];
    var s2 := Next(s1, Advance(p, true));
    assert s2.live == map[p := Txn(key, Settling, true, true)];
    var s3 := Next(s2, Advance(p, true));
    assert s3.live == map[p := Txn(key, Discarding, true, true)];
    var s4 := Next(s3, Advance(p, true));
    assert s4.live == map[p := Txn(key, Unlocking, true, true)];
  }

  /** A rejected CONFIRM puts the original back. */
  lemma BadConfirmRestores(s: State, p: Pid, key: Key)
    requires s.live == map[p := Txn(key, Swapped, true, false)] && s.disk.lock.Some? && s.disk.lock.value.key == key
    requires s.disk.src.Some? && s.disk.bak.Some?
    ensures var rolled := Next(Next(s, Confirm(p, false)), Advance(p, true));
            var end := Next(Next(rolled, Advance(p, true)), Advance(p, true));
            end.disk == Disk(s.disk.bak, None, None, None) && end.accepted == s.accepted && end.live == map[]
  {
    var s1 := Next(s, Confirm(p, false));
    assert s1.live == map[p := Txn(key, Settling, true, false)];
    var s2 := Next(s1, Advance(p, true));
    assert s2.live == map[p := Txn(key, Discarding, true, false)];
    var s3 := Next(s2, Advance(p, true));
    assert s3.live == map[p := Txn(key, Unlocking, true, false)];
  }

  /** A crash changes no file, and recovery by any worker that does not take the
      lock for active heals the path, whenever the crash came: the accepted content
      is at the source name and nothing else is left. The one exception, a backup
      beside a source without a lock, is left for the operator. */
  lemma CrashThenRecoveryHeals(s: State, p: Pid, me: nat, original: Content)
    requires Inv(s, original) && !Active(s.disk, me, s.now)
    requires s.live.Keys <= {p}
    ensures var crashed := Next(s, Crash(p));
            && crashed.disk == s.disk && crashed.live == map[]
            && Next(crashed, Recover(me, 3, true, true, true)).disk ==
               if s.disk.bak.Some? && s.disk.src.Some? && s.disk.lock.None? then s.disk
               else Disk(Some(s.accepted), None, None, None)
  {
    assert Next(s, Crash(p)).live == map[];
  }

  /** The condition is the right one: whenever it fails between the two renames of
      a swap whose output is not the accepted content, one file operation of that
      recovery and one of the swap lose the accepted content. */
  lemma DisrespectLoses(s: State, p: Pid, me: nat, original: Content)
    requires Inv(s, original) && p in s.live && s.live[p].phase.MoveIn? && !Busy(s, me) && !Active(s.disk, me, s.now)
    requires s.disk.tmp.Some? && s.disk.tmp.value != s.accepted
    ensures var lost := Next(Next(s, Recover(me, 1, true, true, true)), Advance(p, true));
            lost.accepted == s.accepted && lost.disk.src == s.disk.tmp && lost.disk.bak.None?
  {
    assert TxnFits(s, s.live[p]);
  }

  // ---- Time gives the condition ----

  /** Time does not pass the stale bound of a running pipeline's lock, however late
      its refreshes and however many of them fail. */
  predicate Beating(s: State, st: Step) {
    st.Tick? && s.live != map[] && s.disk.lock.Some? ==>
      s.now + st.seconds - s.disk.lock.value.refreshed < R.STALE_LOCK_SECONDS
  }

  ghost predicate BeatingRun(tr: Trace, original: Content) {
    Run(tr, original) && forall i | 0 <= i < |tr.steps| :: Beating(tr.states[i], tr.steps[i])
  }

  predicate Young(s: State) {
    s.live != map[] && s.disk.lock.Some? ==> s.now - s.disk.lock.value.refreshed < R.STALE_LOCK_SECONDS
  }

  lemma YoungIsRespected(s: State, st: Step, original: Content)
    requires Inv(s, original) && Young(s)
    ensures Respected(s, st)
  {
    if s.live != map[] {
      var p :| p in s.live;
      assert TxnFits(s, s.live[p]);
    }
  }

  lemma StepKeepsYoung(s: State, st: Step, original: Content)
    requires Inv(s, original) && Young(s) && Beating(s, st)
    ensures Young(Next(s, st))
  {
    YoungIsRespected(s, st, original);
    if IsRecovery(st) { RecoveryKeepsInv(s, st, original); }
  }

  lemma {:induction false} BeatingKeepsYoung(tr: Trace, original: Content, n: nat)
    requires BeatingRun(tr, original) && n < |tr.states|
    ensures Inv(tr.states[n], original) && Young(tr.states[n])
  {
    if n > 0 {
      BeatingKeepsYoung(tr, original, n - 1);
      YoungIsRespected(tr.states[n - 1], tr.steps[n - 1], original);
      StepKeepsInv(tr.states[n - 1], tr.steps[n - 1], original);
      StepKeepsYoung(tr.states[n - 1], tr.steps[n - 1], original);
    }
  }

  /** If a running pipeline's lock never gets 900 seconds old, which refreshing it
      every 300 seconds gives with room for two that are late or fail, every
      recovery respects it; so all of the above holds. */
  lemma LiveLocksAreRespected(tr: Trace, original: Content)
    requires BeatingRun(tr, original)
    ensures RespectedRun(tr, original)
  {
    forall i | 0 <= i < |tr.steps| ensures Respected(tr.states[i], tr.steps[i]) {
      BeatingKeepsYoung(tr, original, i);
      YoungIsRespected(tr.states[i], tr.steps[i], original);
    }
  }

  /** Pipeline `p` makes or refreshes its lock. */
  predicate Refreshes(s: State, st: Step, p: Pid) {
    st == Touch(p) || (st.Acquire? && st.p == p && p !in s.live)
  }

  predicate FreshSince(s: State, p: Pid, time: int) {
    && p in s.live && s.disk.lock.Some? && s.disk.lock.value.key == s.live[p].key
    && time <= s.disk.lock.value.refreshed && time <= s.now
  }

  lemma FreshOneOn(s: State, st: Step, original: Content, p: Pid, time: int)
    requires Inv(s, original) && Respected(s, st) && p in Next(s, st).live
    requires FreshSince(s, p, time) || (Refreshes(s, st, p) && time == s.now)
    ensures FreshSince(Next(s, st), p, time)
  {
    if p in s.live { assert TxnFits(s, s.live[p]); }
    if IsRecovery(st) { RecoveryKeepsInv(s, st, original); }
  }

  lemma FreshAt(tr: Trace, original: Content, m: nat, p: Pid, time: int)
    requires RespectedRun(tr, original) && m < |tr.steps| && p in tr.states[m + 1].live
    requires FreshSince(tr.states[m], p, time) || (Refreshes(tr.states[m], tr.steps[m], p) && time == tr.states[m].now)
    ensures FreshSince(tr.states[m + 1], p, time)
  {
    InvHolds(tr, original, m);
    FreshOneOn(tr.states[m], tr.steps[m], original, p, time);
  }

  predicate LiveFrom(tr: Trace, k: nat, n: nat, p: Pid) {
    forall m | k < m <= n && m < |tr.states| :: p in tr.states[m].live
  }

  /** As long as a pipeline runs, its lock is no older than its last refresh, in
      every respected run: so one that refreshes within 900 seconds is beating. */
  lemma {:induction false} LockIsAsOldAsItsRefresh(tr: Trace, original: Content, k: nat, n: nat, p: Pid)
    requires RespectedRun(tr, original) && k < n < |tr.states| && LiveFrom(tr, k, n, p)
    requires Refreshes(tr.states[k], tr.steps[k], p)
    ensures FreshSince(tr.states[n], p, tr.states[k].now)
    decreases n
  {
    if k + 1 < n { LockIsAsOldAsItsRefresh(tr, original, k, n - 1, p); }
    FreshAt(tr, original, n - 1, p, tr.states[k].now);
  }

  /** A pipeline that stalls past the stale bound can lose the content: a recovery
      that restores under its swap takes away the backup its rollback needs. */
  lemma StalledSwapLoses() returns (tr: Trace, n: nat)
    ensures Run(tr, 1) && n < |tr.states|
    ensures tr.states[n].accepted == 1 && tr.states[n].disk.src == Some(2) && tr.states[n].disk.bak.None?
  {
    var steps := [Acquire(0, Key(0, 0)), Encode(0, 2), BeginSwap(0), Advance(0, true), Tick(900),
                  Recover(1, 1, true, true, true), Advance(0, true)];
    var s0 := Start(1);
    var s1 := Next(s0, steps[0]);
    var s2 := Next(s1, steps[1]);
    var s3 := Next(s2, steps[2]);
    var s4 := Next(s3, steps[3]);
    var s5 := Next(s4, steps[4]);
    assert s5.live.Keys == {0} && s5.live[0].key == Key(0, 0);
    var s6 := Next(s5, steps[5]);
    tr := Trace([s0, s1, s2, s3, s4, s5, s6, Next(s6, steps[6])], steps);
    n := 7;
  }

  // ---- The two renames as the code has them ----

  const ME: Key := Key(0, 0)

  ghost function Alone(d: Disk, phase: Phase, mutating: bool): State {
    State(d, map[0 := Txn(ME, phase, mutating, false)], 0, 0, {})
  }

  /** The steps of a swap, taken one after another. */
  ghost function SwapSteps(d: Disk, first: bool, second: bool, undo: bool): State {
    var s := Next(Alone(d, Encoding, false), BeginSwap(0));
    if !(0 in s.live && s.live[0].phase.MoveAway?) then s
    else
      var s := Next(s, Advance(0, first));
      if !(0 in s.live && s.live[0].phase.MoveIn?) then s
      else
        var s := Next(s, Advance(0, second));
        if 0 in s.live && s.live[0].phase.PutBack? then Next(s, Advance(0, undo)) else s
  }

  /** The files of one source as the swap and its rollback change them; `first`,
      `second`, `undo` and `ok` say which renames go through. */
  class OwnedSource {
    var src: Option<Content>
    var tmp: Option<Content>
    var bak: Option<Content>
    var mutating: bool

    ghost function Files(): Disk
      reads this
    {
      Disk(src, tmp, bak, Some(Lock(ME, 0)))
    }

    constructor (content: Content, output: Content)
      ensures src == Some(content) && tmp == Some(output) && bak == None && !mutating
    {
      src, tmp, bak, mutating := Some(content), Some(output), None, false;
    }

    /** Answers whether it raised. A pre-existing backup is refused before
        anything is touched; success leaves the output at the source and the
        original at the backup; any failure leaves the original in one of the
        two. The files and the mark that the source is being changed are those
        of the machine's steps. */
    method AtomicSwap(first: bool, second: bool, undo: bool) returns (raised: bool)
      requires !mutating
      modifies this
      ensures var s := SwapSteps(old(Files()), first, second, undo);
              Files() == s.disk && mutating == s.live[0].mutating && raised == !s.live[0].phase.Swapped?
      ensures old(bak).Some? ==> raised && !mutating && Files() == old(Files())
      ensures !raised ==> src == old(tmp) && src.Some? && bak == old(src) && bak.Some? && tmp.None?
      ensures raised && old(bak).None? ==>
                && tmp == old(tmp)
                && ((src == old(src) && bak.None?) || (src.None? && bak == old(src)))
    {
      if bak.Some? {
        return true;
      }
      mutating := true;
      if !(first && src.Some?) {
        return true;
      }
      bak, src := src, None;
      if second && tmp.Some? {
        src, tmp := tmp, None;
        return false;
      }
      if undo {
        src, bak := bak, None;
      }
      return true;
    }

    /** True when the original is in place. */
    method RollbackSwap(ok: bool) returns (restored: bool)
      requires mutating
      modifies this`src, this`bak
      ensures var s := Next(Alone(old(Files()), Settling, true), Advance(0, ok));
              Files() == s.disk && restored == (0 in s.live)
      ensures restored ==> bak.None? && src == if old(bak).Some? then old(bak) else old(src)
      ensures !restored ==> Files() == old(Files()) && bak.Some?
    {
      if bak.None? {
        return true;
      }
      if !ok {
        return false;
      }
      src, bak := bak, None;
      return true;
    }

    /** The exit of a transaction whose output was not confirmed: whatever failed
        on the way, a rollback that answers true has the original back. */
    method SwapAndBack(first: bool, second: bool, undo: bool, ok: bool) returns (restored: bool)
      requires !mutating && bak.None? && src.Some?
      modifies this
      ensures restored ==> src == old(src) && bak.None?
      ensures !restored ==> bak == old(src)
    {
      var raised := AtomicSwap(first, second, undo);
      restored := RollbackSwap(ok);
    }
  }
}

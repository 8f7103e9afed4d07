/** The stale-attempt fence on the shared connection: a rollback can bring an
    earlier attempt back, and that is the only way an attempt is interrupted. */
module SharedAttempts {
  import opened Options
  import opened Tables
  import opened Attempts
  import opened Delivery
  import opened SharedReports
  import Undo

  /** Step `k` is the claim that hands token `t` for job `j` to worker `w`. */
  ghost predicate ClaimedAt(h: History, k: nat, j: JobId, w: WorkerId, t: Token) {
    && k < |h.steps| && k < |h.states| && h.steps[k].Elsewhere?
    && ClaimWon(h.states[k].books.store, h.steps[k].st, j, w, t)
  }

  ghost predicate RunsIn(s: State, j: JobId, w: WorkerId, t: Token) {
    Holds(s.books.store, j, w, t) || Holds(s.durable.store, j, w, t)
  }

  lemma RanOrClaimed(h: History, n: nat, j: JobId, w: WorkerId, t: Token)
    requires Behaviour(h) && n < |h.steps| && RunsIn(h.states[n + 1], j, w, t)
    ensures RunsIn(h.states[n], j, w, t) || ClaimedAt(h, n, j, w, t)
  {
    StoresHold(h, n, n);
    BooksMove(h.states[n], h.steps[n]);
    if !RunsIn(h.states[n], j, w, t) { OnlyClaimsStart(h.states[n], h.steps[n], j, w, t); }
  }

  lemma NobodyRunsAtFirst(h: History, j: JobId, w: WorkerId, t: Token)
    requires Behaviour(h)
    ensures !RunsIn(h.states[0], j, w, t)
  {
  }

  /** Whoever runs an attempt, pending or durably, has it from its own claim. */
  lemma {:induction false} RunningWasClaimed(h: History, n: nat, j: JobId, w: WorkerId, t: Token) returns (k: nat)
    requires Behaviour(h) && n < |h.states| && RunsIn(h.states[n], j, w, t)
    ensures k < n && ClaimedAt(h, k, j, w, t)
    decreases n
  {
    NobodyRunsAtFirst(h, j, w, t);
    RanOrClaimed(h, n - 1, j, w, t);
    if RunsIn(h.states[n - 1], j, w, t) {
      k := RunningWasClaimed(h, n - 1, j, w, t);
    } else {
      k := n - 1;
    }
  }

  /** Rollbacks apart, only a claim starts an attempt. */
  lemma OnlyClaimsStart(s: State, step: Step, j: JobId, w: WorkerId, t: Token)
    requires StoresFit(s) && !Holds(s.books.store, j, w, t) && !KindOf(s, step).RollsBack?
    requires Holds(Next(s, step).books.store, j, w, t)
    ensures step.Elsewhere? && ClaimWon(s.books.store, step.st, j, w, t)
  {
    if step.Elsewhere? && !step.st.FinalizeJob? {
      AttemptsStartWithAClaim(s.books.store, step.st, j, w, t);
    } else if step.Shortcut? {
      TerminalStartsNothing(s.books.store, FinalizeJob(step.id, step.worker, step.token, Complete, step.now), j, w, t);
    } else if step.Write? && InPhase(s, step.request, Checked) {
      TerminalStartsNothing(s.books.store, Delivery.Statement(s.requests[step.request].report, step.now), j, w, t);
    }
  }

  lemma TerminalStartsNothing(s: Store, st: Statement, j: JobId, w: WorkerId, t: Token)
    requires st.FinalizeJob? && Holds(Apply(s, st), j, w, t)
    ensures Holds(s, j, w, t)
  {
  }

  /** Also with rollbacks, a report that finishes an attempt with its token is
      preceded by the claim that issued the token, for that job and that worker. */
  lemma FinishedByItsClaimer(h: History, n: nat, r: nat, j: JobId, t: Token) returns (k: nat)
    requires Behaviour(h) && n < |h.steps| && h.steps[n].Write? && h.steps[n].request == r && FinishesAt(h, n, j, t)
    ensures k < n && ClaimedAt(h, k, j, h.states[n].requests[r].report.worker, t)
  {
    StoresHold(h, n, n);
    HitFinishes(h.states[n].books.store, Delivery.Statement(h.states[n].requests[r].report, h.steps[n].now));
    k := RunningWasClaimed(h, n, j, h.states[n].requests[r].report.worker, t);
  }

  /** And an attempt is finished a second time only if the first was undone. */
  lemma FinishedTwiceMeansUndone(h: History, m: nat, n: nat, j: JobId, t: Token)
    requires Behaviour(h) && m < n && FinishesAt(h, m, j, t) && FinishesAt(h, n, j, t)
    ensures Undone(h, m, n)
  {
    var s, step := h.states[n], h.steps[n];
    StoresHold(h, n, n);
    if step.Write? {
      HitFinishes(s.books.store, Delivery.Statement(s.requests[step.request].report, step.now));
    } else {
      HitFinishes(s.books.store, FinalizeJob(step.id, step.worker, step.token, Complete, step.now));
    }
    FinishedIffOneStands(h, n, j, t);
    assert !FinishStands(h, m, n, j, t);
  }

  // ---- What interrupts an attempt ----

  ghost predicate HoldsAt(h: History, n: nat, j: JobId, w: WorkerId, t: Token)
    requires n < |h.states|
  {
    Holds(h.states[n].books.store, j, w, t)
  }

  /** Step `p` takes the attempt away: a release, a sweep, a retry, a delete, a
      finish. */
  ghost predicate EndsAt(h: History, p: nat, j: JobId, w: WorkerId, t: Token)
    requires |h.states| == |h.steps| + 1
  {
    p < |h.steps| && HoldsAt(h, p, j, w, t) && !HoldsAt(h, p + 1, j, w, t)
  }

  /** The end at step `p` as state `n` shows it. */
  ghost predicate Gone(h: History, p: nat, n: nat, j: JobId, w: WorkerId, t: Token)
    requires |h.states| == |h.steps| + 1 && p < n < |h.states|
  {
    && t < h.states[n].books.store.issued
    && (!Undone(h, p, n) ==>
          && !HoldsAt(h, n, j, w, t)
          && (Undo.Committed(Kinds(h), p, n) ==> !Holds(h.states[n].durable.store, j, w, t)))
  }

  lemma GoneOneOn(h: History, p: nat, n: nat, j: JobId, w: WorkerId, t: Token)
    requires Behaviour(h) && p < n < |h.steps| && Gone(h, p, n, j, w, t)
    ensures Gone(h, p, n + 1, j, w, t)
  {
    StoresHold(h, n, n + 1);
    StoresHold(h, n, n);
    Undo.OneStepOn(Kinds(h), p, n);
    if !HoldsAt(h, n, j, w, t) && HoldsAt(h, n + 1, j, w, t) && !Kinds(h)[n].RollsBack? {
      OnlyClaimsStart(h.states[n], h.steps[n], j, w, t);
    }
    BooksMove(h.states[n], h.steps[n]);
  }

  lemma GoneAtFirst(h: History, p: nat, j: JobId, w: WorkerId, t: Token)
    requires Behaviour(h) && EndsAt(h, p, j, w, t)
    ensures Gone(h, p, p + 1, j, w, t)
  {
    StoresHold(h, p, p);
    StoresHold(h, p, p + 1);
  }

  lemma GoneHolds(h: History, p: nat, n: nat, j: JobId, w: WorkerId, t: Token)
    requires Behaviour(h) && EndsAt(h, p, j, w, t) && p < n < |h.states|
    ensures Gone(h, p, n, j, w, t)
  {
    GoneAtFirst(h, p, j, w, t);
    forall m: nat | p < m < |h.steps| && Gone(h, p, m, j, w, t) ensures Gone(h, p, m + 1, j, w, t) {
      GoneOneOn(h, p, m, j, w, t);
    }
    GoneByInduction(h, p, n, j, w, t);
  }

  lemma {:induction false} GoneByInduction(h: History, p: nat, n: nat, j: JobId, w: WorkerId, t: Token)
    requires |h.states| == |h.steps| + 1 && p < n < |h.states| && Gone(h, p, p + 1, j, w, t)
    requires forall m: nat | p < m < |h.steps| && Gone(h, p, m, j, w, t) :: Gone(h, p, m + 1, j, w, t)
    ensures Gone(h, p, n, j, w, t)
    decreases n
  {
    if p + 1 < n { GoneByInduction(h, p, n - 1, j, w, t); }
  }

  /** The fence with rollbacks: an attempt that is running at state `n` was claimed
      by its worker in this run; every step that took it away since was undone
      before `n`; and it has been current ever since its claim exactly when there is
      no such step. */
  lemma RevivedOnlyByRollback(h: History, n: nat, j: JobId, w: WorkerId, t: Token) returns (k: nat)
    requires Behaviour(h) && n < |h.states| && HoldsAt(h, n, j, w, t)
    ensures k < n && ClaimedAt(h, k, j, w, t)
    ensures forall p: nat | p < n && EndsAt(h, p, j, w, t) :: Undone(h, p, n)
    ensures (forall m: nat | k < m <= n :: HoldsAt(h, m, j, w, t)) <==>
            (forall p: nat | k < p < n :: !EndsAt(h, p, j, w, t))
  {
    k := RunningWasClaimed(h, n, j, w, t);
    forall p: nat | p < n && EndsAt(h, p, j, w, t) ensures Undone(h, p, n) { GoneHolds(h, p, n, j, w, t); }
    if forall p: nat | k < p < n :: !EndsAt(h, p, j, w, t) {
      forall m: nat | k < m <= n ensures HoldsAt(h, m, j, w, t) { HeldThroughout(h, k, m, n, j, w, t); }
    }
  }

  lemma ClaimHolds(h: History, k: nat, j: JobId, w: WorkerId, t: Token)
    requires Behaviour(h) && ClaimedAt(h, k, j, w, t)
    ensures HoldsAt(h, k + 1, j, w, t)
  {
    assert h.states[k + 1] == Next(h.states[k], h.steps[k]);
  }

  lemma {:induction false} HeldThroughout(h: History, k: nat, m: nat, n: nat, j: JobId, w: WorkerId, t: Token)
    requires Behaviour(h) && ClaimedAt(h, k, j, w, t) && k < m <= n < |h.states|
    requires forall p: nat | k < p < n :: !EndsAt(h, p, j, w, t)
    ensures HoldsAt(h, m, j, w, t)
    decreases m
  {
    if k + 1 < m {
      HeldThroughout(h, k, m - 1, n, j, w, t);
      assert !EndsAt(h, m - 1, j, w, t);
    } else {
      ClaimHolds(h, k, j, w, t);
    }
  }

  /** A run in which an attempt is taken away by a re-registration and given to
      another worker, and a rollback brings it back. */
  lemma AttemptCanComeBack() returns (h: History)
    ensures Behaviour(h) && |h.states| == 7
    ensures EndsAt(h, 3, 0, 1, 0) && HoldsAt(h, 5, 0, 2, 1) && HoldsAt(h, 6, 0, 1, 0)
  {
    var running := Books(Store(map[0 := RUNNING], map[], 1), [], {}, {});
    var released := RUNNING.(status := Queued, worker := None, token := None, updated := 2);
    var second := RUNNING.(worker := Some(2), token := Some(1), updated := 3);
    var b1 := running.(store := Store(map[0 := released], map[], 1));
    var b2 := running.(store := Store(map[0 := second], map[], 2));
    h := RunningRun(running);
    h := ThenStep(h, Elsewhere(ReleaseJobs(1, 2)), State(b1, running, map[], map[], None, 4));
    h := ThenStep(h, Elsewhere(ClaimJob(2, {0}, true, 0, 3)), State(b2, running, map[], map[], None, 5));
    h := ThenStep(h, Rollback, State(running.(store := running.store.(issued := 2)), running, map[], map[], None, 6));
  }
}

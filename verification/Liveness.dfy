/** The three time-based sweeps against a worker that is alive: a punctual
    worker keeps its job, and a job is only taken from a live worker on
    evidence that covers the whole grace window. */
module Liveness {
  import opened Options
  import opened Tables
  import opened Attempts

  /** Statements carry the time they run at, and time does not go back. */
  ghost predicate ClockMovesForward(tr: Trace) {
    forall i, k | 0 <= i <= k < |tr.steps| :: tr.steps[i].now <= tr.steps[k].now
  }

  lemma LaterStep(tr: Trace, k: nat, i: nat)
    requires ClockMovesForward(tr) && k < |tr.steps| && i < |tr.steps| && tr.steps[k].now < tr.steps[i].now
    ensures k < i
  {
  }

  predicate IsSweep(st: Statement) {
    st.MarkStaleWorkers? || st.RequeueOrphans? || st.RequeueAbandoned?
  }

  predicate IsBeat(st: Statement, w: WorkerId) {
    st.Heartbeat? && st.worker == w
  }

  predicate Registers(st: Statement, w: WorkerId) {
    (st.UpsertWorker? || st.ReleaseJobs?) && st.worker == w
  }

  lemma {:induction false} TouchedSinceClaim(tr: Trace, k: nat, n: nat, j: JobId, w: WorkerId, t: Token)
    requires Run(tr) && ClockMovesForward(tr) && n < |tr.states| && CurrentSince(tr, k, n, j, w, t)
    ensures tr.steps[k].now <= tr.states[n].jobs[j].updated
  {
    if k + 1 < n {
      TouchedSinceClaim(tr, k, n - 1, j, w, t);
      assert tr.steps[k].now <= tr.steps[n - 1].now;
      assert tr.states[n] == Apply(tr.states[n - 1], tr.steps[n - 1]);
    }
  }

  // ---- A punctual worker keeps its job ----

  /** Worker `w` claims `j` at step `k`. Its heartbeats name the job from step
      `first` on, which comes within the abandonment grace of the claim; after
      that no stale-worker sweep finds its last heartbeat more than 90 seconds
      old, and it does not re-register. */
  ghost predicate Punctual(tr: Trace, k: nat, first: nat, n: nat, j: JobId, w: WorkerId) {
    && k < n <= |tr.steps| && |tr.states| == |tr.steps| + 1
    && ClaimWon(tr.states[k], tr.steps[k], j, w, tr.states[k].issued)
    && w in tr.states[k].workers
    && k < first
    && (forall i | k < i < n && i <= first :: tr.steps[i].now <= tr.steps[k].now + ABANDONED_GRACE_SECONDS)
    && (first < n ==> IsBeat(tr.steps[first], w))
    && (forall i | first <= i < n && IsBeat(tr.steps[i], w) ::
          tr.steps[i].current == Some(j) && tr.steps[i].status.Alive())
    && (forall i | first < i < n && tr.steps[i].MarkStaleWorkers? ::
          exists m :: first <= m < i && IsBeat(tr.steps[m], w) &&
                      tr.steps[i].now - tr.steps[m].now <= STALE_WORKER_SECONDS)
    && (forall i | k < i < n :: !Registers(tr.steps[i], w))
  }

  /** What the scheduler knows of a punctual worker at state `i`. */
  ghost predicate KnownPunctual(tr: Trace, k: nat, first: nat, i: nat, j: JobId, w: WorkerId)
    requires i < |tr.states| && k < |tr.steps| && i <= |tr.steps|
  {
    && w in tr.states[i].workers
    && (first < i ==>
          && tr.states[i].workers[w].status.Alive()
          && tr.states[i].workers[w].current == Some(j)
          && forall m | first <= m < i && IsBeat(tr.steps[m], w) :: tr.steps[m].now <= tr.states[i].workers[w].lastBeat)
  }

  lemma ClaimLeavesWorkers(s: Store, st: Statement)
    requires st.ClaimJob?
    ensures Apply(s, st).workers == s.workers
  {
  }

  lemma {:induction false} PunctualIsKnown(tr: Trace, k: nat, first: nat, n: nat, i: nat, j: JobId, w: WorkerId)
    requires Run(tr) && ClockMovesForward(tr) && Punctual(tr, k, first, n, j, w) && k < i <= n
    requires CurrentSince(tr, k, i, j, w, tr.states[k].issued)
    ensures KnownPunctual(tr, k, first, i, j, w)
    decreases i
  {
    if k + 1 < i {
      PunctualIsKnown(tr, k, first, n, i - 1, j, w);
      PunctualStep(tr, k, first, n, i - 1, j, w);
    } else {
      KnownFromTheClaim(tr, k, first, n, j, w);
    }
  }

  lemma KnownFromTheClaim(tr: Trace, k: nat, first: nat, n: nat, j: JobId, w: WorkerId)
    requires Run(tr) && Punctual(tr, k, first, n, j, w)
    ensures KnownPunctual(tr, k, first, k + 1, j, w)
  {
    assert tr.states[k + 1] == Apply(tr.states[k], tr.steps[k]);
    ClaimLeavesWorkers(tr.states[k], tr.steps[k]);
  }

  lemma PunctualStep(tr: Trace, k: nat, first: nat, n: nat, i: nat, j: JobId, w: WorkerId)
    requires Run(tr) && ClockMovesForward(tr) && Punctual(tr, k, first, n, j, w) && k < i < n
    requires Holds(tr.states[i], j, w, tr.states[k].issued)
    requires KnownPunctual(tr, k, first, i, j, w)
    ensures KnownPunctual(tr, k, first, i + 1, j, w)
  {
    var s, st := tr.states[i], tr.steps[i];
    assert !Registers(st, w);
    assert OwnsActive(s.jobs, w);
    assert tr.states[i + 1] == Apply(s, st);
  }

  /** No interleaving of the stale-worker, orphan and abandoned sweeps touches
      the job of a punctual worker, however long it goes without progress. */
  lemma PunctualWorkerKeepsItsJob(tr: Trace, k: nat, first: nat, n: nat, i: nat, j: JobId, w: WorkerId)
    requires Run(tr) && ClockMovesForward(tr) && Punctual(tr, k, first, n, j, w) && k < i < n
    requires IsSweep(tr.steps[i]) && Holds(tr.states[i], j, w, tr.states[k].issued)
    ensures j in tr.states[i + 1].jobs && tr.states[i + 1].jobs[j] == tr.states[i].jobs[j]
  {
    var l := HeldSinceClaim(tr, i, j, w, tr.states[k].issued);
    OneClaimPerToken(tr, k, l, j, j, w, w, tr.states[k].issued);
    PunctualIsKnown(tr, k, first, n, i, j, w);
    TouchedSinceClaim(tr, k, i, j, w, tr.states[k].issued);
    assert tr.states[i + 1] == Apply(tr.states[i], tr.steps[i]);
  }

  // ---- What an abandoned-job requeue proves about the worker ----

  ghost predicate Names(s: Store, w: WorkerId, j: JobId) {
    w in s.workers && s.workers[w].current == Some(j)
  }

  /** Step `m` is a registration that finds the worker's row naming the job: it
      clears the name and leaves the stamp as it is. */
  ghost predicate ForgetsUnstamped(tr: Trace, m: nat, w: WorkerId, j: JobId) {
    && m < |tr.steps| && m < |tr.states|
    && tr.steps[m].UpsertWorker? && tr.steps[m].worker == w && Names(tr.states[m], w, j)
  }

  /** Where a job that was named at state `i` stands at state `p`. */
  ghost predicate NamedOrStamped(tr: Trace, i: nat, p: nat, w: WorkerId, j: JobId)
    requires p < |tr.states| && i < |tr.steps|
  {
    || (exists m :: i <= m < p && ForgetsUnstamped(tr, m, w, j))
    || (w in tr.states[p].workers &&
        var row := tr.states[p].workers[w];
        row.current == Some(j) || (row.changed.Some? && tr.steps[i].now <= row.changed.value))
  }

  /** One statement drops a name with a stamp, unless it is a registration. */
  lemma DropIsStamped(s: Store, st: Statement, w: WorkerId, j: JobId, since: Instant)
    requires OwnsActive(s.jobs, w) && since <= st.now && w in s.workers
    requires s.workers[w].current == Some(j) || (s.workers[w].changed.Some? && since <= s.workers[w].changed.value)
    requires !(st.UpsertWorker? && st.worker == w && Names(s, w, j))
    ensures w in Apply(s, st).workers
    ensures var row := Apply(s, st).workers[w];
            row.current == Some(j) || (row.changed.Some? && since <= row.changed.value)
  {
  }

  /** Once named, a job is dropped only with a stamp, or by a registration. */
  lemma {:induction false} DropsAreStamped(tr: Trace, k: nat, i: nat, p: nat, n: nat, j: JobId, w: WorkerId, t: Token)
    requires Run(tr) && ClockMovesForward(tr) && k < i <= p <= n < |tr.steps|
    requires CurrentSince(tr, k, n, j, w, t) && Names(tr.states[i], w, j)
    ensures NamedOrStamped(tr, i, p, w, j)
    decreases p
  {
    if i < p {
      DropsAreStamped(tr, k, i, p - 1, n, j, w, t);
      if !(exists m :: i <= m < p && ForgetsUnstamped(tr, m, w, j)) {
        assert !ForgetsUnstamped(tr, p - 1, w, j);
        assert Holds(tr.states[p - 1], j, w, t);
        DropIsStamped(tr.states[p - 1], tr.steps[p - 1], w, j, tr.steps[i].now);
      }
    }
  }

  /** State `i` belongs to the grace window of the sweep at step `n`: it is in
      force until step `i`, which is no earlier than the window's start. */
  ghost predicate InWindow(tr: Trace, i: nat, n: nat) {
    i <= n < |tr.steps| && tr.steps[i].now >= tr.steps[n].now - ABANDONED_GRACE_SECONDS
  }

  /** An abandoned-sweep requeue at time `t` means that the worker's row did not
      name the job at any moment of the preceding grace window, except exactly when
      a registration inside the window found the job named. */
  lemma AbandonedMeansDisowned(tr: Trace, n: nat, j: JobId, w: WorkerId)
    requires Run(tr) && ClockMovesForward(tr) && n < |tr.steps|
    requires tr.steps[n].RequeueAbandoned? && j in tr.states[n].jobs
    requires Abandoned(tr.states[n], j, tr.states[n].jobs[j], tr.steps[n].now)
    requires tr.states[n].jobs[j].worker == Some(w)
    ensures (exists i: nat :: InWindow(tr, i, n) && Names(tr.states[i], w, j)) <==>
            (exists m: nat :: m < n && InWindow(tr, m, n) && ForgetsUnstamped(tr, m, w, j))
  {
    forall i: nat | InWindow(tr, i, n) && Names(tr.states[i], w, j)
      ensures exists m: nat :: m < n && InWindow(tr, m, n) && ForgetsUnstamped(tr, m, w, j)
    {
      var m := NamedThenForgotten(tr, n, i, j, w);
      assert InWindow(tr, m, n);
    }
  }

  lemma NamedThenForgotten(tr: Trace, n: nat, i: nat, j: JobId, w: WorkerId) returns (m: nat)
    requires Run(tr) && ClockMovesForward(tr) && InWindow(tr, i, n) && Names(tr.states[i], w, j)
    requires tr.steps[n].RequeueAbandoned? && j in tr.states[n].jobs
    requires Abandoned(tr.states[n], j, tr.states[n].jobs[j], tr.steps[n].now)
    requires tr.states[n].jobs[j].worker == Some(w)
    ensures i <= m < n && ForgetsUnstamped(tr, m, w, j)
  {
    InvHolds(tr, n);
    var t := tr.states[n].jobs[j].token.value;
    var k := HeldSinceClaim(tr, n, j, w, t);
    TouchedSinceClaim(tr, k, n, j, w, t);
    LaterStep(tr, k, i);
    DropsAreStamped(tr, k, i, n, n, j, w, t);
    m :| i <= m < n && ForgetsUnstamped(tr, m, w, j);
  }

  /** Between the two statements of a registration the evidence is weaker: the
      new worker row names no job and carries the old stamp, so a sweep that
      lands there requeues a job that was named a moment before. */
  lemma RegistrationWindow() returns (tr: Trace, n: nat)
    ensures Run(tr) && ClockMovesForward(tr) && 1 < n < |tr.steps|
    ensures tr.steps[n].RequeueAbandoned? && 0 in tr.states[n].jobs
    ensures Abandoned(tr.states[n], 0, tr.states[n].jobs[0], tr.steps[n].now)
    ensures tr.steps[n - 1].UpsertWorker? && tr.steps[n - 1].now == tr.steps[n].now
    ensures Names(tr.states[n - 1], 1, 0)
  {
    var job := Job(Transcoding, Some(1), Some(0), 0.0, 0, false, 0, 0);
    var back := Worker(Online, None, Some(1), 1000, true);
    tr := NamedOnce(job);
    n := 5;
    tr := Then(tr, UpsertWorker(1, true, 1000), Store(map[0 := job], map[1 := back], 1));
    tr := Then(tr, RequeueAbandoned(1000), Store(map[0 := Released(job, 1000)], map[1 := back], 1));
  }

  /** Job 0 is claimed by worker 1 at time 0, and named by it at time 1. */
  lemma NamedOnce(job: Job) returns (tr: Trace)
    requires job == Job(Transcoding, Some(1), Some(0), 0.0, 0, false, 0, 0)
    ensures Run(tr) && |tr.steps| == 4 && forall i | 0 <= i < 4 :: 0 <= tr.steps[i].now <= 1
    ensures ClockMovesForward(tr)
    ensures tr.states[4] == Store(map[0 := job], map[1 := Worker(Busy, Some(0), Some(1), 1, true)], 1)
  {
    var idle := Worker(Online, None, None, 0, true);
    var busy := Worker(Busy, Some(0), Some(1), 1, true);
    var waiting := job.(status := Pending, worker := None, token := None);
    tr := Trace([EMPTY_STORE], []);
    tr := Then(tr, UpsertWorker(1, true, 0), Store(map[], map[1 := idle], 0));
    tr := Then(tr, CreateJob(0, 0, false, 0), Store(map[0 := waiting], map[1 := idle], 0));
    tr := Then(tr, ClaimJob(1, {0}, true, 0, 0), Store(map[0 := job], map[1 := idle], 1));
    tr := Then(tr, Heartbeat(1, Busy, Some(0), 1), Store(map[0 := job], map[1 := busy], 1));
  }
}

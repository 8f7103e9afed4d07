/** What the claim token buys: over every interleaving of statements a report
    reaches a job row only while the attempt that earned it is the current one. */
module Attempts {
  import opened Options
  import opened Tables

  // ---- The invariant every statement keeps ----

  ghost predicate RowShape(job: Job, issued: Token) {
    && (job.status.Active() ==> job.worker.Some? && job.token.Some?)
    && (job.status.Waiting() ==> job.worker.None? && job.token.None?)
    && (job.token.Some? ==> job.token.value < issued)
  }

  /** Active rows hold an owner and a token, waiting rows hold neither, and no
      two rows hold the same token. */
  ghost predicate Inv(s: Store) {
    && (forall j | j in s.jobs :: RowShape(s.jobs[j], s.issued))
    && (forall j, k | j in s.jobs && k in s.jobs && j != k && s.jobs[j].token.Some? ::
          s.jobs[j].token != s.jobs[k].token)
  }

  /** One statement, seen from one row: a token is the one the row already
      had, or the one a winning claim just issued to it. */
  lemma RowKeepsShape(s: Store, st: Statement, j: JobId)
    requires Inv(s) && j in Apply(s, st).jobs
    ensures s.issued <= Apply(s, st).issued
    ensures RowShape(Apply(s, st).jobs[j], Apply(s, st).issued)
    ensures var t := Apply(s, st).jobs[j].token;
            t.Some? ==> (j in s.jobs && s.jobs[j].token == t) || (st.ClaimJob? && st.pick == j && t.value == s.issued)
  {
  }

  lemma StepKeepsInv(s: Store, st: Statement)
    requires Inv(s)
    ensures Inv(Apply(s, st))
    ensures s.issued <= Apply(s, st).issued
  {
    forall j | j in Apply(s, st).jobs {
      RowKeepsShape(s, st, j);
    }
  }

  lemma {:induction false} InvHolds(tr: Trace, n: nat)
    requires Run(tr) && n < |tr.states|
    ensures Inv(tr.states[n])
  {
    if n > 0 {
      InvHolds(tr, n - 1);
      StepKeepsInv(tr.states[n - 1], tr.steps[n - 1]);
    }
  }

  lemma {:induction false} IssuedGrows(tr: Trace, m: nat, n: nat)
    requires Run(tr) && m <= n < |tr.states|
    ensures tr.states[m].issued <= tr.states[n].issued
    decreases n
  {
    if m < n {
      IssuedGrows(tr, m, n - 1);
      InvHolds(tr, n - 1);
      StepKeepsInv(tr.states[n - 1], tr.steps[n - 1]);
    }
  }

  // ---- Attempts ----

  /** Job `j` is being run by worker `w` as attempt `t`. */
  ghost predicate Holds(s: Store, j: JobId, w: WorkerId, t: Token) {
    j in s.jobs && s.jobs[j].status.Active() && s.jobs[j].worker == Some(w) && s.jobs[j].token == Some(t)
  }

  /** Statement `st` is the claim that started attempt `t` of job `j`. */
  ghost predicate ClaimWon(s: Store, st: Statement, j: JobId, w: WorkerId, t: Token) {
    && st.ClaimJob? && st.pick == j && st.worker == w
    && NextInLine(s.jobs, st.codecs, st.downscales, j)
    && t == s.issued
  }

  /** The attempt `t` has been the current one of `j` at every moment since
      its claim at step `k`, up to and including state `n`. */
  ghost predicate CurrentSince(tr: Trace, k: nat, n: nat, j: JobId, w: WorkerId, t: Token)
    requires Run(tr) && n < |tr.states|
  {
    && k < n
    && ClaimWon(tr.states[k], tr.steps[k], j, w, t)
    && forall m | k < m <= n :: Holds(tr.states[m], j, w, t)
  }

  lemma AttemptsStartWithAClaim(s: Store, st: Statement, j: JobId, w: WorkerId, t: Token)
    requires Inv(s) && Holds(Apply(s, st), j, w, t) && !Holds(s, j, w, t)
    ensures ClaimWon(s, st, j, w, t)
  {
  }

  lemma {:induction false} HeldSinceClaim(tr: Trace, n: nat, j: JobId, w: WorkerId, t: Token) returns (k: nat)
    requires Run(tr) && n < |tr.states| && Holds(tr.states[n], j, w, t)
    ensures k < n && CurrentSince(tr, k, n, j, w, t)
  {
    assert n > 0;
    InvHolds(tr, n - 1);
    if Holds(tr.states[n - 1], j, w, t) {
      k := HeldSinceClaim(tr, n - 1, j, w, t);
    } else {
      AttemptsStartWithAClaim(tr.states[n - 1], tr.steps[n - 1], j, w, t);
      k := n - 1;
    }
  }

  /** A progress or terminal report, whoever sent it and whenever it lands. */
  predicate IsReport(st: Statement) {
    st.ReportProgress? || st.FinalizeJob?
  }

  predicate Reaches(s: Store, st: Statement)
    requires IsReport(st)
  {
    st.id in s.jobs && Fenced(s.jobs[st.id], st.worker, st.token) &&
    if st.ReportProgress? then s.jobs[st.id].status.Active() else !s.jobs[st.id].status.Terminal()
  }

  lemma ReachingIsHolding(s: Store, st: Statement, t: Token)
    requires Inv(s) && IsReport(st) && st.token == Some(t)
    requires Apply(s, st) != s
    ensures Reaches(s, st) && Holds(s, st.id, st.worker, t)
  {
  }

  /** The stale-attempt fence: if a report carrying token `t` changes anything,
      the claim that issued `t` is an earlier step of this run, it was made by
      the reporting worker for that very job, and its attempt has been the
      job's current one ever since. */
  lemma StaleAttemptFence(tr: Trace, n: nat, t: Token) returns (k: nat)
    requires Run(tr) && n < |tr.steps|
    requires IsReport(tr.steps[n]) && tr.steps[n].token == Some(t)
    requires tr.states[n + 1] != tr.states[n]
    ensures CurrentSince(tr, k, n, tr.steps[n].id, tr.steps[n].worker, t)
  {
    InvHolds(tr, n);
    ReachingIsHolding(tr.states[n], tr.steps[n], t);
    k := HeldSinceClaim(tr, n, tr.steps[n].id, tr.steps[n].worker, t);
  }

  /** Each token is issued once. */
  lemma OneClaimPerToken(tr: Trace, k: nat, l: nat, j: JobId, i: JobId, w: WorkerId, v: WorkerId, t: Token)
    requires Run(tr) && k < |tr.steps| && l < |tr.steps|
    requires ClaimWon(tr.states[k], tr.steps[k], j, w, t) && ClaimWon(tr.states[l], tr.steps[l], i, v, t)
    ensures k == l
  {
    if k < l { IssuedGrows(tr, k + 1, l); }
    if l < k { IssuedGrows(tr, l + 1, k); }
  }

  ghost predicate FinalizedAt(tr: Trace, n: nat, t: Token)
    requires Run(tr)
  {
    && n < |tr.steps| && tr.steps[n].FinalizeJob? && tr.steps[n].token == Some(t)
    && tr.states[n + 1] != tr.states[n]
  }

  /** Each attempt is finalised at most once, however often its report lands. */
  lemma FinalizedAtMostOnce(tr: Trace, m: nat, n: nat, t: Token)
    requires Run(tr) && FinalizedAt(tr, m, t) && FinalizedAt(tr, n, t)
    ensures m == n
  {
    var a := StaleAttemptFence(tr, m, t);
    var b := StaleAttemptFence(tr, n, t);
    OneClaimPerToken(tr, a, b, tr.steps[m].id, tr.steps[n].id, tr.steps[m].worker, tr.steps[n].worker, t);
    assert m < n ==> !Holds(tr.states[m + 1], tr.steps[n].id, tr.steps[n].worker, t);
    assert n < m ==> !Holds(tr.states[n + 1], tr.steps[m].id, tr.steps[m].worker, t);
  }

  // ---- Where each status can go ----

  /** A terminal row changes status in exactly two ways: the retry route on a
      failed or cancelled job, and that route's bare write on any job. */
  lemma TerminalLeavesOnlyByRetry(s: Store, st: Statement, j: JobId)
    requires Inv(s) && j in s.jobs && s.jobs[j].status.Terminal() && j in Apply(s, st).jobs
    ensures Apply(s, st).jobs[j].status != s.jobs[j].status <==>
            (st.RetryWrite? && st.id == j) ||
            (st.RetryJob? && st.id == j && (s.jobs[j].status.Failed? || s.jobs[j].status.Cancelled?))
    ensures Apply(s, st).jobs[j].status == s.jobs[j].status ==>
              Apply(s, st).jobs[j] == s.jobs[j]
  {
  }

  /** With the retry of this job taken as one step, its complete or skipped row
      stays exactly as it is for as long as it is kept. */
  lemma {:induction false} OutcomeIsPermanent(tr: Trace, m: nat, n: nat, j: JobId)
    requires Run(tr) && m <= n < |tr.states|
    requires forall i | m <= i < n :: !(tr.steps[i].RetryWrite? && tr.steps[i].id == j)
    requires forall i | m <= i <= n :: j in tr.states[i].jobs
    requires tr.states[m].jobs[j].status.Complete? || tr.states[m].jobs[j].status.Skipped?
    ensures tr.states[n].jobs[j] == tr.states[m].jobs[j]
    decreases n
  {
    if m < n {
      OutcomeIsPermanent(tr, m, n - 1, j);
      InvHolds(tr, n - 1);
      assert tr.states[n] == Apply(tr.states[n - 1], tr.steps[n - 1]);
      TerminalLeavesOnlyByRetry(tr.states[n - 1], tr.steps[n - 1], j);
    }
  }

  /** The retry route as two statements does undo an outcome: its write is
      unconditional, so one that was decided on a failed row still lands after
      another retry, a claim and a completion. */
  lemma LateRetryWriteUndoesCompletion() returns (tr: Trace, n: nat, j: JobId)
    ensures Run(tr) && n < |tr.steps| && j in tr.states[n].jobs
    ensures tr.steps[n] == RetryWrite(j, 6) && tr.states[n].jobs[j].status.Complete?
    ensures tr.states[n + 1].jobs[j].status.Pending?
    // the read that decided it: the row was failed two steps into the run
    ensures exists i :: 0 <= i < n && j in tr.states[i].jobs && tr.states[i].jobs[j].status.Failed?
  {
    j, n := 0, 6;
    var steps := [CreateJob(0, 0, false, 0), ClaimJob(1, {0}, true, 0, 1), FinalizeJob(0, 1, Some(0), Failed, 2),
                  RetryWrite(0, 3), ClaimJob(1, {0}, true, 0, 4), FinalizeJob(0, 1, Some(1), Complete, 5),
                  RetryWrite(0, 6)];
    var s0 := EMPTY_STORE;
    var s1 := Apply(s0, steps[0]);
    var s2 := Apply(s1, steps[1]);
    var s3 := Apply(s2, steps[2]);
    var s4 := Apply(s3, steps[3]);
    var s5 := Apply(s4, steps[4]);
    var s6 := Apply(s5, steps[5]);
    var s7 := Apply(s6, steps[6]);
    tr := Trace([s0, s1, s2, s3, s4, s5, s6, s7], steps);
    assert tr.states[3].jobs[0].status.Failed?;
  }

  /** A report without a token is fenced by worker id alone, so one sent for
      the first attempt finalises the second. */
  lemma TokenlessReportHitsTheNextAttempt() returns (tr: Trace, n: nat)
    ensures Run(tr) && 2 < n < |tr.steps|
    ensures tr.steps[n] == FinalizeJob(0, 1, None, Failed, 4)
    ensures Holds(tr.states[2], 0, 1, 0) && Holds(tr.states[n], 0, 1, 1)
    ensures tr.states[n + 1].jobs[0].status.Failed?
  {
    n := 4;
    var released := Job(Queued, None, None, 0.0, 0, false, 0, 2);
    var second := released.(status := Transcoding, worker := Some(1), token := Some(1), updated := 3);
    tr := ReleasedRun(released);
    tr := Then(tr, ClaimJob(1, {0}, true, 0, 3), Store(map[0 := second], map[], 2));
    var failed := second.(status := Failed, updated := 4);
    tr := Then(tr, FinalizeJob(0, 1, None, Failed, 4), Store(map[0 := failed], map[], 2));
  }

  /** Worker 1 claims job 0, and its re-registration releases it. */
  lemma ReleasedRun(released: Job) returns (tr: Trace)
    requires released == Job(Queued, None, None, 0.0, 0, false, 0, 2)
    ensures Run(tr) && |tr.steps| == 3 && Holds(tr.states[2], 0, 1, 0)
    ensures tr.states[3] == Store(map[0 := released], map[], 1)
  {
    var waiting := released.(status := Pending, updated := 0);
    var first := waiting.(status := Transcoding, worker := Some(1), token := Some(0), updated := 1);
    tr := Trace([EMPTY_STORE], []);
    tr := Then(tr, CreateJob(0, 0, false, 0), Store(map[0 := waiting], map[], 0));
    tr := Then(tr, ClaimJob(1, {0}, true, 0, 1), Store(map[0 := first], map[], 1));
    tr := Then(tr, ReleaseJobs(1, 2), Store(map[0 := released], map[], 1));
  }

  // ---- Cancel against claim ----

  /** Step `n` takes job `j` out of the queue, by a claim or by a cancel. */
  ghost predicate Takes(tr: Trace, n: nat, j: JobId)
    requires Run(tr)
  {
    && n < |tr.steps| && j in tr.states[n].jobs && tr.states[n].jobs[j].status.Waiting()
    && j in tr.states[n + 1].jobs && !tr.states[n + 1].jobs[j].status.Waiting()
  }

  /** What can put a job (back) in the queue. */
  predicate Requeues(st: Statement, j: JobId) {
    || ((st.CreateJob? || st.RetryJob? || st.RetryWrite?) && st.id == j)
    || st.ReleaseJobs? || st.RequeueOrphans? || st.RequeueAbandoned?
  }

  lemma EntersTheQueue(s: Store, st: Statement, j: JobId)
    requires j in Apply(s, st).jobs && Apply(s, st).jobs[j].status.Waiting()
    requires !(j in s.jobs && s.jobs[j].status.Waiting())
    ensures Requeues(st, j)
  {
  }

  lemma {:induction false} WaitingAgain(tr: Trace, m: nat, n: nat, j: JobId) returns (i: nat)
    requires Run(tr) && m < n < |tr.states|
    requires !(j in tr.states[m].jobs && tr.states[m].jobs[j].status.Waiting())
    requires j in tr.states[n].jobs && tr.states[n].jobs[j].status.Waiting()
    ensures m <= i < n && Requeues(tr.steps[i], j)
    decreases n
  {
    if j in tr.states[n - 1].jobs && tr.states[n - 1].jobs[j].status.Waiting() {
      i := WaitingAgain(tr, m, n - 1, j);
    } else {
      i := n - 1;
      EntersTheQueue(tr.states[i], tr.steps[i], j);
    }
  }

  /** A cancel and a claim of the same waiting job have one winner: between two
      steps that took the job out of the queue, something put it back. */
  lemma OneWinnerPerQueueing(tr: Trace, m: nat, n: nat, j: JobId) returns (i: nat)
    requires Run(tr) && m < n && Takes(tr, m, j) && Takes(tr, n, j)
    ensures m < i < n && Requeues(tr.steps[i], j)
  {
    i := WaitingAgain(tr, m + 1, n, j);
  }

  /** And whichever of the two comes first does win. */
  lemma FirstComeWins(s: Store, j: JobId, w: WorkerId, codecs: set<Codec>, d: bool, now: Instant, later: Instant)
    requires Inv(s) && j in s.jobs && NextInLine(s.jobs, codecs, d, j)
    ensures var claimed := Apply(s, ClaimJob(w, codecs, d, j, now));
            Holds(claimed, j, w, s.issued) && Apply(claimed, CancelIfWaiting(j, later)) == claimed
    ensures var cancelled := Apply(s, CancelIfWaiting(j, now));
            cancelled.jobs[j].status.Cancelled? && Apply(cancelled, ClaimJob(w, codecs, d, j, later)) == cancelled
  {
  }
}

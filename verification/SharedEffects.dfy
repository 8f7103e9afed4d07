/** Exactly once on the shared connection, whatever others commit and roll back:
    an attempt has a second catalog write only if a transition was undone, and an
    acknowledged outcome is durable exactly when a finish of it stands for good. */
module SharedEffects {
  import opened Options
  import opened Tables
  import opened Attempts
  import opened Delivery
  import opened SharedReports
  import opened SharedAttempts

  // ---- Where a catalog write comes from ----

  /** Request `r` has the same report throughout. */
  lemma {:induction false} ReportStays(h: History, m: nat, n: nat, r: nat)
    requires Behaviour(h) && m <= n < |h.states| && r in h.states[m].requests
    ensures r in h.states[n].requests && h.states[n].requests[r].report == h.states[m].requests[r].report
    decreases n
  {
    if m < n {
      ReportStays(h, m, n - 1, r);
      RequestsBeginNow(h.states[n - 1], h.steps[n - 1], r);
    }
  }

  /** Step `i` is the transition that request `r` won, of attempt `t`. */
  ghost predicate WonAt(h: History, i: nat, r: nat, j: JobId, t: Token) {
    FinishesAt(h, i, j, t) && h.steps[i].Write? && h.steps[i].request == r
  }

  lemma FinalizedBy(s: State, step: Step, r: nat, t: Token)
    requires r in Next(s, step).requests && Next(s, step).requests[r].phase == Finalized(t)
    ensures r in s.requests
    ensures s.requests[r].phase == Finalized(t) ||
            (step.Write? && step.request == r && Finishes(s, step, s.requests[r].report.job, t))
  {
  }

  lemma {:induction false} FinalizedHadWon(h: History, n: nat, r: nat, t: Token) returns (i: nat)
    requires Behaviour(h) && n < |h.states|
    requires r in h.states[n].requests && h.states[n].requests[r].phase == Finalized(t)
    ensures i < n && WonAt(h, i, r, h.states[n].requests[r].report.job, t)
    decreases n
  {
    FinalizedBy(h.states[n - 1], h.steps[n - 1], r, t);
    ReportStays(h, n - 1, n, r);
    if h.states[n - 1].requests[r].phase == Finalized(t) {
      i := FinalizedHadWon(h, n - 1, r, t);
    } else {
      i := n - 1;
    }
  }

  predicate InBooks(s: State, e: Effect) {
    e in s.books.effects || e in s.durable.effects
  }

  lemma WrittenBy(s: State, step: Step, e: Effect)
    requires InBooks(Next(s, step), e)
    ensures InBooks(s, e) ||
            (&& step == Sync(e.request) && e.request in s.requests && s.requests[e.request].phase == Finalized(e.token)
             && s.requests[e.request].report.job == e.job)
  {
  }

  /** Every catalog write, pending or durable, is that of a request that won the
      transition of the very attempt. */
  lemma {:induction false} WriterHadWon(h: History, n: nat, e: Effect) returns (i: nat)
    requires Behaviour(h) && n < |h.states| && InBooks(h.states[n], e)
    ensures i < n && WonAt(h, i, e.request, e.job, e.token)
    decreases n
  {
    WrittenBy(h.states[n - 1], h.steps[n - 1], e);
    if InBooks(h.states[n - 1], e) {
      i := WriterHadWon(h, n - 1, e);
    } else {
      i := FinalizedHadWon(h, n - 1, e.request, e.token);
    }
  }

  // ---- One write per request ----

  ghost predicate OneEach(b: Books) {
    forall a, c | 0 <= a < c < |b.effects| :: b.effects[a].request != b.effects[c].request
  }

  ghost predicate WritersAreDone(s: State, b: Books) {
    forall a | 0 <= a < |b.effects| ::
      b.effects[a].request in s.requests && Rank(s.requests[b.effects[a].request].phase) >= 3
  }

  ghost predicate Tidy(s: State) {
    OneEach(s.books) && OneEach(s.durable) && WritersAreDone(s, s.books) && WritersAreDone(s, s.durable)
  }

  lemma WritersStayDone(s: State, step: Step, b: Books)
    requires WritersAreDone(s, b)
    ensures WritersAreDone(Next(s, step), b)
  {
    forall a | 0 <= a < |b.effects|
      ensures b.effects[a].request in Next(s, step).requests
      ensures Rank(Next(s, step).requests[b.effects[a].request].phase) >= 3
    {
      PhasesAdvance(s, step, b.effects[a].request);
    }
  }

  lemma StepKeepsTidy(s: State, step: Step)
    requires Tidy(s)
    ensures Tidy(Next(s, step))
  {
    var s' := Next(s, step);
    WritersStayDone(s, step, s.books);
    WritersStayDone(s, step, s.durable);
    OnlyWinnersWrite(s, step);
    BooksMove(s, step);
  }

  lemma {:induction false} TidyHolds(h: History, n: nat)
    requires Behaviour(h) && n < |h.states|
    ensures Tidy(h.states[n])
  {
    if n > 0 {
      TidyHolds(h, n - 1);
      StepKeepsTidy(h.states[n - 1], h.steps[n - 1]);
    }
  }

  // ---- One job per attempt ----

  lemma OneClaim(h: History, k: nat, l: nat, j: JobId, i: JobId, w: WorkerId, v: WorkerId, t: Token)
    requires Behaviour(h) && ClaimedAt(h, k, j, w, t) && ClaimedAt(h, l, i, v, t)
    ensures k == l && i == j
  {
    ClaimTakesToken(h, k, j, w, t);
    ClaimTakesToken(h, l, i, v, t);
    if k < l { StoresHold(h, k + 1, l); }
    if l < k { StoresHold(h, l + 1, k); }
  }

  lemma ClaimTakesToken(h: History, k: nat, j: JobId, w: WorkerId, t: Token)
    requires Behaviour(h) && ClaimedAt(h, k, j, w, t)
    ensures h.states[k].books.store.issued == t < h.states[k + 1].books.store.issued
  {
    assert h.states[k + 1] == Next(h.states[k], h.steps[k]);
  }

  lemma OneJobPerAttempt(h: History, m: nat, n: nat, r: nat, q: nat, j: JobId, i: JobId, t: Token)
    requires Behaviour(h) && WonAt(h, m, r, j, t) && WonAt(h, n, q, i, t)
    ensures i == j
  {
    var k := FinishedByItsClaimer(h, m, r, j, t);
    var l := FinishedByItsClaimer(h, n, q, i, t);
    OneClaim(h, k, l, j, i, h.states[m].requests[r].report.worker, h.states[n].requests[q].report.worker, t);
  }

  // ---- Exactly once ----

  /** In every run, two catalog writes of one attempt are those of two requests, and
      the earlier one's transition was undone before the later one won. */
  lemma TwoWritesMeanUndone(h: History, n: nat, a: nat, b: nat) returns (m: nat, l: nat)
    requires Behaviour(h) && n < |h.states| && a < |h.states[n].books.effects| && b < |h.states[n].books.effects|
    requires a != b && h.states[n].books.effects[a].token == h.states[n].books.effects[b].token
    ensures var e, f := h.states[n].books.effects[a], h.states[n].books.effects[b];
            && e.request != f.request && e.job == f.job
            && m < n && l < n && m != l
            && WonAt(h, m, e.request, e.job, e.token) && WonAt(h, l, f.request, f.job, f.token)
            && (m < l ==> Undone(h, m, l)) && (l < m ==> Undone(h, l, m))
  {
    var e, f := h.states[n].books.effects[a], h.states[n].books.effects[b];
    TidyHolds(h, n);
    m := WriterHadWon(h, n, e);
    l := WriterHadWon(h, n, f);
    OneJobPerAttempt(h, m, l, e.request, f.request, e.job, f.job, e.token);
    if m < l { FinishedTwiceMeansUndone(h, m, l, e.job, e.token); }
    if l < m { FinishedTwiceMeansUndone(h, l, m, e.job, e.token); }
  }

  /** So a report whose transition was not undone when it commits is the only one of
      its attempt whose transition stands: any other catalog write of the attempt is
      left over from a transition that was undone before this one. */
  lemma WholeReportIsTheOnlyOne(h: History, i: nat, c: nat, k: nat, r: nat, j: JobId, t: Token, e: Effect)
      returns (m: nat)
    requires Transaction(h, i, c, k, r, j, t) && !Undone(h, i, k)
    requires e in h.states[k].books.effects && e.token == t && e.request != r
    ensures m < i && WonAt(h, m, e.request, j, t) && Undone(h, m, i)
  {
    m := WriterHadWon(h, k, e);
    OneJobPerAttempt(h, i, m, r, e.request, j, e.job, t);
    if i < m {
      FinishedTwiceMeansUndone(h, i, m, j, t);
    } else {
      FinishedTwiceMeansUndone(h, m, i, j, t);
    }
  }

  // ---- When an acknowledged outcome is durable ----

  /** Outcomes that workers report are on rows that carry their attempt. */
  ghost predicate OutcomesCarryTokens(s: Store) {
    forall j | j in s.jobs && (s.jobs[j].status.Complete? || s.jobs[j].status.Skipped? || s.jobs[j].status.Failed?) ::
      s.jobs[j].token.Some?
  }

  lemma StatementKeepsTokens(s: Store, st: Statement)
    requires Inv(s) && OutcomesCarryTokens(s)
    ensures OutcomesCarryTokens(Apply(s, st))
  {
  }

  lemma StepKeepsTokens(s: State, step: Step)
    requires StoresFit(s) && OutcomesCarryTokens(s.books.store) && OutcomesCarryTokens(s.durable.store)
    ensures OutcomesCarryTokens(Next(s, step).books.store) && OutcomesCarryTokens(Next(s, step).durable.store)
  {
    if step.Elsewhere? {
      StatementKeepsTokens(s.books.store, step.st);
    } else if step.Shortcut? {
      StatementKeepsTokens(s.books.store, FinalizeJob(step.id, step.worker, step.token, Complete, step.now));
    } else if step.Write? && InPhase(s, step.request, Checked) {
      StatementKeepsTokens(s.books.store, Delivery.Statement(s.requests[step.request].report, step.now));
    } else {
      JobsStay(s, step);
    }
    BooksMove(s, step);
  }

  lemma JobsStay(s: State, step: Step)
    requires !step.Elsewhere? && !step.Shortcut? && !(step.Write? && InPhase(s, step.request, Checked))
    ensures var jobs := Next(s, step).books.store.jobs;
            jobs == s.books.store.jobs || jobs == s.durable.store.jobs
  {
  }

  lemma {:induction false} TokensHold(h: History, n: nat)
    requires Behaviour(h) && n < |h.states|
    ensures OutcomesCarryTokens(h.states[n].books.store) && OutcomesCarryTokens(h.states[n].durable.store)
  {
    if n > 0 {
      TokensHold(h, n - 1);
      StoresHold(h, n - 1, n - 1);
      StepKeepsTokens(h.states[n - 1], h.steps[n - 1]);
    }
  }

  /** At step `d` request `r` is acknowledged as a duplicate: on the row it reads. */
  ghost predicate DuplicateAt(h: History, d: nat, r: nat) {
    && d + 1 < |h.states| && d < |h.steps| && (h.steps[d] == Read(r) || h.steps[d] == Reread(r))
    && r in h.states[d].requests && !h.states[d].requests[r].phase.Answered?
    && r in h.states[d + 1].requests && h.states[d + 1].requests[r].phase == Answered(Status(204))
  }

  lemma DuplicateReadsOutcome(s: State, step: Step, r: nat)
    requires (step == Read(r) || step == Reread(r)) && r in s.requests && !s.requests[r].phase.Answered?
    requires r in Next(s, step).requests && Next(s, step).requests[r].phase == Answered(Status(204))
    ensures Recorded(s, s.requests[r].report)
  {
  }

  /** A duplicate is acknowledged on a finish of some attempt that stands at that
      moment, with the reported outcome. That outcome is durable at a later moment,
      on a row that still carries the attempt, exactly when a finish of the attempt
      stands for good; so it is once something has committed that finish, and it is
      not if that finish is undone and nobody finishes the attempt again. */
  lemma DuplicateRestsOnAFinish(h: History, d: nat, n: nat, r: nat) returns (p: nat, t: Token)
    requires Behaviour(h) && DuplicateAt(h, d, r) && d <= n < |h.states|
    ensures var report := h.states[d].requests[r].report;
            && FinishStands(h, p, d, report.job, t) && OutcomeOf(h.states[p], h.steps[p]) == report.outcome
            && var b := h.states[n].durable;
               report.job in b.store.jobs && b.store.jobs[report.job].token == Some(t) ==>
                 && (b.store.jobs[report.job].status.Terminal() <==>
                       exists q: nat :: FinishStandsForGood(h, q, n, report.job, t))
                 && (FinishStandsForGood(h, p, n, report.job, t) ==> b.store.jobs[report.job].status == report.outcome)
                 && (Undone(h, p, n) && (forall q: nat | q < n && FinishesAt(h, q, report.job, t) :: q == p) ==>
                       !b.store.jobs[report.job].status.Terminal())
  {
    var report := h.states[d].requests[r].report;
    assert h.states[d + 1] == Next(h.states[d], h.steps[d]);
    DuplicateReadsOutcome(h.states[d], h.steps[d], r);
    TokensHold(h, d);
    t := h.states[d].books.store.jobs[report.job].token.value;
    FinishedIffOneStands(h, d, report.job, t);
    p :| FinishStands(h, p, d, report.job, t);
    FinishedIffOneStands(h, n, report.job, t);
  }

  /** The report arrives twice; the first delivery has made its transition. */
  lemma TwiceDeliveredRun(running: Books, done: Books, p: Report) returns (h: History)
    requires p == Report(0, 1, Some(0), Complete) && running == Books(Store(map[0 := RUNNING], map[], 1), [], {}, {})
    requires done == running.(store := Store(map[0 := RUNNING.(status := Complete, updated := 2)], map[], 1))
    ensures Behaviour(h) && |h.steps| == 7
    ensures h.states[7] == State(done, running, map[1 := Request(p, Finalized(0), 4)], map[9 := p], None, 7)
  {
    h := RunningRun(running);
    h := ThenStep(h, Append(9, p), State(running, running, map[], map[9 := p], None, 4));
    h := ThenStep(h, Stray(1, p), State(running, running, map[1 := Request(p, Arrived, 4)], map[9 := p], None, 5));
    h := ThenStep(h, Read(1), State(running, running, map[1 := Request(p, Checked, 4)], map[9 := p], None, 6));
    var won := map[1 := Request(p, Finalized(0), 4)];
    h := ThenStep(h, Step.Write(1, 2), State(done, running, won, map[9 := p], None, 7));
  }

  /** The second delivery is acknowledged on the pending outcome of the first and
      leaves the journal; then somebody rolls back, and the outcome is nowhere. */
  lemma AcknowledgedInVain() returns (h: History)
    ensures Behaviour(h) && |h.steps| == 11 && DuplicateAt(h, 8, 2)
    ensures 9 in h.states[9].journal && h.states[11].journal == map[]
    ensures h.states[11].durable.store.jobs == h.states[11].books.store.jobs == map[0 := RUNNING]
  {
    var p := Report(0, 1, Some(0), Complete);
    var running := Books(Store(map[0 := RUNNING], map[], 1), [], {}, {});
    var done := running.(store := Store(map[0 := RUNNING.(status := Complete, updated := 2)], map[], 1));
    var first := Request(p, Finalized(0), 4);
    h := TwiceDeliveredRun(running, done, p);
    var sent := map[1 := first, 2 := Request(p, Arrived, 7)];
    var answered := map[1 := first, 2 := Request(p, Answered(Status(204)), 7)];
    h := ThenStep(h, Send(9, 2), State(done, running, sent, map[9 := p], Some(Exchange(2, 9)), 8));
    h := ThenStep(h, Read(2), State(done, running, answered, map[9 := p], Some(Exchange(2, 9)), 9));
    h := ThenStep(h, Receive, State(done, running, answered, map[], None, 10));
    h := ThenStep(h, Rollback, State(running, running, answered, map[], None, 11));
  }
}

/** Exactly-once effects of terminal reports whose transactions are isolated, as
    PostgreSQL keeps them: after the transition the first commit or rollback is the
    report's own. Then, durably and at every moment, the row of a finished attempt
    and the catalog tell the same story. */
module Effects {
  import opened Options
  import opened Tables
  import opened Delivery
  import opened SharedReports
  import opened SharedAttempts
  import opened SharedEffects
  import Undo

  /** Nobody else commits or rolls back between the transition that `r` won at step
      `i` and the end of its transaction. */
  ghost predicate Isolated(h: History, i: nat, r: nat)
    requires |h.states| == |h.steps| + 1
  {
    forall l: nat | Undo.FirstAt(Kinds(h), i, l) :: EndsTransaction(h.steps[l], r)
  }

  predicate EndsTransaction(step: Step, r: nat) {
    (step.Seal? || step.Fault?) && step.request == r
  }

  ghost predicate IsolatedRun(h: History) {
    Behaviour(h) && forall i: nat, r: nat, j, t | WonAt(h, i, r, j, t) :: Isolated(h, i, r)
  }

  /** Between its transition and its commit a request has told the catalog. */
  lemma {:induction false} SyncedBetween(h: History, i: nat, n: nat, r: nat) returns (c: nat)
    requires Behaviour(h) && i < n < |h.states| && r in h.states[i].requests && h.states[i].requests[r].phase == Checked
    requires r in h.states[n].requests && h.states[n].requests[r].phase.Synced?
    ensures i < c < n && SyncsAt(h, c, r)
    decreases n
  {
    SyncedBy(h.states[n - 1], h.steps[n - 1], r);
    if h.states[n - 1].requests[r].phase.Synced? {
      c := SyncedBetween(h, i, n - 1, r);
    } else {
      c := n - 1;
    }
  }

  lemma SyncedBy(s: State, step: Step, r: nat)
    requires r in Next(s, step).requests && Next(s, step).requests[r].phase.Synced?
    ensures r in s.requests && (s.requests[r].phase.Synced? || Syncs(s, step, r))
  {
  }

  lemma WonWasChecked(h: History, i: nat, r: nat, j: JobId, t: Token)
    requires Behaviour(h) && WonAt(h, i, r, j, t)
    ensures r in h.states[i].requests && h.states[i].requests[r].phase == Checked
  {
  }

  /** A request tells the catalog after it has won, and once. */
  lemma SyncsAfterWinning(h: History, i: nat, c: nat, r: nat, j: JobId, t: Token)
    requires Behaviour(h) && WonAt(h, i, r, j, t) && SyncsAt(h, c, r)
    ensures i < c
  {
    WonWasChecked(h, i, r, j, t);
    PhasesGoForward(h, r);
    if c <= i { RanksGrow(h, c, i, r); }
  }

  lemma EndIsAnswered(s: State, step: Step, r: nat)
    requires EndsTransaction(step, r) && !KindOf(s, step).Plain?
    ensures r in Next(s, step).requests && Next(s, step).requests[r].phase.Answered?
  {
  }

  /** A transaction ends once: from then on its request is answered. */
  lemma AnsweredFromOn(h: History, l: nat, n: nat, r: nat)
    requires Behaviour(h) && l < n < |h.states| && EndsTransaction(h.steps[l], r) && !Kinds(h)[l].Plain?
    ensures r in h.states[n].requests && h.states[n].requests[r].phase.Answered?
  {
    EndIsAnswered(h.states[l], h.steps[l], r);
    PhasesGoForward(h, r);
    RanksGrow(h, l + 1, n, r);
  }

  /** After its end a request does not tell the catalog any more. */
  lemma NoSyncAfterEnd(h: History, l: nat, c: nat, r: nat)
    requires Behaviour(h) && l < |h.steps| && EndsTransaction(h.steps[l], r) && !Kinds(h)[l].Plain?
    requires SyncsAt(h, c, r)
    ensures c < l
  {
    if l < c { AnsweredFromOn(h, l, c, r); }
  }

  /** The transition of an isolated report stands for good exactly when its catalog
      write does, at every moment. */
  lemma IsolatedReportAgrees(h: History, i: nat, n: nat, r: nat, j: JobId, t: Token)
    requires Behaviour(h) && WonAt(h, i, r, j, t) && Isolated(h, i, r) && i < n < |h.states|
    ensures FinishStandsForGood(h, i, n, j, t) <==> exists c: nat :: SyncStandsForGood(h, c, n, r)
  {
    if l: nat :| Undo.FirstAt(Kinds(h), i, l) && l < n {
      WhenItEnds(h, i, l, n, r, j, t);
    } else {
      assert forall l: nat | i < l < n && l < |h.steps| :: Kinds(h)[l].Plain? by { NothingFirst(Kinds(h), i, n); }
      forall c: nat | SyncsAt(h, c, r) ensures i < c { SyncsAfterWinning(h, i, c, r, j, t); }
    }
  }

  lemma {:induction false} NothingFirst(kinds: seq<Undo.Kind>, i: nat, n: nat)
    requires forall l: nat | Undo.FirstAt(kinds, i, l) :: n <= l
    ensures forall l: nat | i < l < n && l < |kinds| :: kinds[l].Plain?
    decreases n
  {
    if i + 1 < n <= |kinds| {
      NothingFirst(kinds, i, n - 1);
      assert !Undo.FirstAt(kinds, i, n - 1);
    } else if n > |kinds| && n > 0 {
      NothingFirst(kinds, i, n - 1);
    }
  }

  lemma WhenItEnds(h: History, i: nat, l: nat, n: nat, r: nat, j: JobId, t: Token)
    requires Behaviour(h) && WonAt(h, i, r, j, t) && Isolated(h, i, r)
    requires Undo.FirstAt(Kinds(h), i, l) && l < n < |h.states|
    ensures FinishStandsForGood(h, i, n, j, t) <==> exists c: nat :: SyncStandsForGood(h, c, n, r)
  {
    Undo.FirstDecides(Kinds(h), i, i, l, n);
    if Kinds(h)[l].Commits? {
      WonWasChecked(h, i, r, j, t);
      var c := SyncedBetween(h, i, l, r);
      Undo.FirstDecides(Kinds(h), i, c, l, n);
      assert SyncStandsForGood(h, c, n, r);
    } else {
      forall c: nat | SyncsAt(h, c, r) ensures Undone(h, c, n) {
        SyncsAfterWinning(h, i, c, r, j, t);
        NoSyncAfterEnd(h, l, c, r);
        Undo.FirstDecides(Kinds(h), i, c, l, n);
      }
    }
  }

  /** Over every run with isolated transactions, durably and at every moment: no
      attempt has two catalog writes; the row of an attempt that a report finished
      has the catalog write of that report, with the outcome it shows; and whatever
      the catalog was told of an attempt is what a row that carries it shows. */
  lemma EffectsExactlyOnce(h: History, n: nat)
    requires IsolatedRun(h) && n < |h.states|
    ensures var d := h.states[n].durable;
            && (forall a, b | 0 <= a < b < |d.effects| :: d.effects[a].token != d.effects[b].token)
            && (forall e | e in d.effects :: RowIs(d, e.job, e.token, e.outcome))
            && (forall i: nat, r: nat, j, t | WonAt(h, i, r, j, t) && FinishStandsForGood(h, i, n, j, t) ::
                  Wrote(d, r) && RowIs(d, j, t, h.states[i].requests[r].report.outcome))
  {
    var d := h.states[n].durable;
    TidyHolds(h, n);
    forall i: nat, r: nat, j, t | WonAt(h, i, r, j, t) && FinishStandsForGood(h, i, n, j, t)
      ensures Wrote(d, r) && RowIs(d, j, t, h.states[i].requests[r].report.outcome)
    {
      IsolatedReportAgrees(h, i, n, r, j, t);
      ToldIffItStands(h, n, r);
      FinishedIffOneStands(h, n, j, t);
    }
    forall e | e in d.effects ensures RowIs(d, e.job, e.token, e.outcome) {
      var i := ToldIsFinished(h, n, e);
      FinishedIffOneStands(h, n, e.job, e.token);
    }
    forall a, b | 0 <= a < b < |d.effects| ensures d.effects[a].token != d.effects[b].token {
      if d.effects[a].token == d.effects[b].token { OneOfThem(h, n, a, b); }
    }
  }

  /** What the catalog was durably told, the transition stands for good. */
  lemma ToldIsFinished(h: History, n: nat, e: Effect) returns (i: nat)
    requires IsolatedRun(h) && n < |h.states| && e in h.states[n].durable.effects
    ensures WonAt(h, i, e.request, e.job, e.token) && FinishStandsForGood(h, i, n, e.job, e.token)
    ensures OutcomeOf(h.states[i], h.steps[i]) == e.outcome
  {
    i := WriterHadWon(h, n, e);
    IsolatedReportAgrees(h, i, n, e.request, e.job, e.token);
    assert Wrote(h.states[n].durable, e.request);
    ToldIffItStands(h, n, e.request);
    OutcomeIsReported(h, i, n, e);
  }

  lemma {:induction false} OutcomeIsReported(h: History, i: nat, n: nat, e: Effect)
    requires Behaviour(h) && n < |h.states| && InBooks(h.states[n], e)
    requires i < |h.states| && e.request in h.states[i].requests
    ensures h.states[i].requests[e.request].report.outcome == e.outcome
    decreases n
  {
    WrittenWithOutcome(h.states[n - 1], h.steps[n - 1], e);
    if InBooks(h.states[n - 1], e) {
      OutcomeIsReported(h, i, n - 1, e);
    } else if i <= n - 1 {
      ReportStays(h, i, n - 1, e.request);
    } else {
      ReportStays(h, n - 1, i, e.request);
    }
  }

  lemma WrittenWithOutcome(s: State, step: Step, e: Effect)
    requires InBooks(Next(s, step), e)
    ensures InBooks(s, e) || (e.request in s.requests && s.requests[e.request].report.outcome == e.outcome)
  {
  }

  lemma OneOfThem(h: History, n: nat, a: nat, b: nat)
    requires IsolatedRun(h) && n < |h.states| && a < b < |h.states[n].durable.effects|
    ensures h.states[n].durable.effects[a].token != h.states[n].durable.effects[b].token
  {
    var e, f := h.states[n].durable.effects[a], h.states[n].durable.effects[b];
    TidyHolds(h, n);
    if e.token == f.token {
      var m := ToldIsFinished(h, n, e);
      var l := ToldIsFinished(h, n, f);
      TwoFinishesClash(h, m, l, n, e.request, f.request, e.job, f.job, e.token);
    }
  }

  lemma TwoFinishesClash(h: History, m: nat, l: nat, n: nat, r: nat, q: nat, j: JobId, i: JobId, t: Token)
    requires Behaviour(h) && n < |h.states| && WonAt(h, m, r, j, t) && WonAt(h, l, q, i, t)
    requires FinishStands(h, m, n, j, t) && FinishStands(h, l, n, i, t)
    ensures m == l && r == q
  {
    OneJobPerAttempt(h, m, l, r, q, j, i, t);
    if m < l {
      FinishedTwiceMeansUndone(h, m, l, j, t);
      Undo.UndoneStays(Kinds(h), m, l, n);
    } else if l < m {
      FinishedTwiceMeansUndone(h, l, m, j, t);
      Undo.UndoneStays(Kinds(h), l, m, n);
    }
  }

  lemma {:induction false} SomethingIsFirst(kinds: seq<Undo.Kind>, i: nat, k: nat) returns (l: nat)
    requires i < k < |kinds| && !kinds[k].Plain?
    ensures l <= k && Undo.FirstAt(kinds, i, l)
    decreases k
  {
    if m: nat :| i < m < k && !kinds[m].Plain? {
      l := SomethingIsFirst(kinds, i, m);
    } else {
      l := k;
    }
  }

  /** An isolated report that was acknowledged by its own transaction has its
      catalog write, and its outcome on a row that carries the attempt, durably and
      for good. */
  lemma TransitionWritesCatalog(h: History, i: nat, c: nat, k: nat, n: nat, r: nat, j: JobId, t: Token)
    requires Transaction(h, i, c, k, r, j, t) && Isolated(h, i, r) && k < n < |h.states|
    ensures Wrote(h.states[n].durable, r)
    ensures RowIs(h.states[n].durable, j, t, h.states[i].requests[r].report.outcome)
  {
    var l := SomethingIsFirst(Kinds(h), i, k);
    if l < k { AnsweredFromOn(h, l, k, r); }
    Undo.FirstDecides(Kinds(h), i, i, k, n);
    assert FinishStandsForGood(h, i, n, j, t);
    IsolatedReportAgrees(h, i, n, r, j, t);
    ToldIffItStands(h, n, r);
    FinishedIffOneStands(h, n, j, t);
  }
}

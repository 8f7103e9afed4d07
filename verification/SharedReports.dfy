/** The report's transaction on the shared connection: what of its two writes
    survives when others commit and roll back inside it. */
module SharedReports {
  import opened Options
  import opened Tables
  import opened Attempts
  import opened Delivery
  import Undo

  function KindOf(s: State, step: Step): Undo.Kind {
    if step.Rollback? || (step.Fault? && RollsBackOn(s, step.request, step.answer)) then Undo.RollsBack
    else if step.Commit? || (step.Seal? && step.request in s.requests && s.requests[step.request].phase.Synced?)
    then Undo.Commits
    else Undo.Plain
  }

  /** A transaction that breaks rolls back. */
  predicate RollsBackOn(s: State, r: nat, answer: Answer) {
    r in s.requests && s.requests[r].phase.Open() && !Acknowledged(answer) && ClassifyError(answer).Retryable?
  }

  function Kinds(h: History): (kinds: seq<Undo.Kind>)
    requires |h.states| == |h.steps| + 1
    ensures |kinds| == |h.steps| && forall i | 0 <= i < |kinds| :: kinds[i] == KindOf(h.states[i], h.steps[i])
  {
    seq(|h.steps|, i requires 0 <= i < |h.steps| => KindOf(h.states[i], h.steps[i]))
  }

  ghost predicate Undone(h: History, i: nat, j: nat)
    requires |h.states| == |h.steps| + 1
  {
    Undo.Undone(Kinds(h), i, j)
  }

  // ---- The catalog write ----

  predicate Wrote(b: Books, r: nat) {
    exists a :: 0 <= a < |b.effects| && b.effects[a].request == r
  }

  predicate Syncs(s: State, step: Step, r: nat) {
    step == Sync(r) && r in s.requests && s.requests[r].phase.Finalized?
  }

  predicate SyncsAt(h: History, p: nat, r: nat) {
    p < |h.steps| && p < |h.states| && Syncs(h.states[p], h.steps[p], r)
  }

  lemma WroteMore(b: Books, b': Books, e: Effect, r: nat)
    requires b'.effects == b.effects + [e]
    ensures Wrote(b', r) <==> Wrote(b, r) || e.request == r
  {
    if Wrote(b, r) {
      var a :| 0 <= a < |b.effects| && b.effects[a].request == r;
      assert b'.effects[a].request == r;
    }
    assert b'.effects[|b.effects|] == e;
  }

  lemma WriteShows(s: State, step: Step, r: nat)
    ensures var s' := Next(s, step);
            Undo.ValuesMove(KindOf(s, step), Syncs(s, step, r), Some(Wrote(s.books, r)), Some(Wrote(s'.books, r)),
                            Some(Wrote(s.durable, r)), Some(Wrote(s'.durable, r)))
  {
    var s' := Next(s, step);
    if step.Sync? && step.request in s.requests && s.requests[step.request].phase.Finalized? {
      WroteMore(s.books, s'.books, s'.books.effects[|s.books.effects|], r);
    }
  }

  function WriteStory(h: History, r: nat): (st: Undo.Story)
    requires |h.states| == |h.steps| + 1
    ensures st.Shaped() && st.kinds == Kinds(h)
    ensures forall i: nat | i < |h.steps| :: st.sets[i] == SyncsAt(h, i, r)
    ensures forall i: nat | i < |h.states| ::
              st.pending[i] == Some(Wrote(h.states[i].books, r)) && st.durable[i] == Some(Wrote(h.states[i].durable, r))
  {
    Undo.Story(
      Kinds(h),
      seq(|h.steps|, i requires 0 <= i < |h.steps| => SyncsAt(h, i, r)),
      seq(|h.states|, i requires 0 <= i < |h.states| => Some(Wrote(h.states[i].books, r))),
      seq(|h.states|, i requires 0 <= i < |h.states| => Some(Wrote(h.states[i].durable, r))))
  }

  lemma WriteStoryIsCoherent(h: History, r: nat)
    requires Behaviour(h)
    ensures Undo.Coherent(WriteStory(h, r))
  {
    forall j: nat | j < |h.steps| ensures Undo.Moves(WriteStory(h, r), j) {
      var s, s' := h.states[j], h.states[j + 1];
      WriteShows(s, h.steps[j], r);
      Undo.MovesByValues(WriteStory(h, r), j, KindOf(s, h.steps[j]), Syncs(s, h.steps[j], r), Some(Wrote(s.books, r)),
                         Some(Wrote(s'.books, r)), Some(Wrote(s.durable, r)), Some(Wrote(s'.durable, r)));
    }
  }

  // ---- The other catalog statement ----

  predicate Notes(s: State, step: Step, r: nat) {
    step == Annotate(r) && r in s.requests && s.requests[r].phase.Open()
  }

  predicate NotesAt(h: History, p: nat, r: nat) {
    p < |h.steps| && p < |h.states| && Notes(h.states[p], h.steps[p], r)
  }

  lemma NoteShows(s: State, step: Step, r: nat)
    ensures var s' := Next(s, step);
            Undo.ValuesMove(KindOf(s, step), Notes(s, step, r), Some(r in s.books.notes), Some(r in s'.books.notes),
                            Some(r in s.durable.notes), Some(r in s'.durable.notes))
  {
  }

  function NoteStory(h: History, r: nat): (st: Undo.Story)
    requires |h.states| == |h.steps| + 1
    ensures st.Shaped() && st.kinds == Kinds(h)
    ensures forall i: nat | i < |h.steps| :: st.sets[i] == NotesAt(h, i, r)
    ensures forall i: nat | i < |h.states| ::
              && st.pending[i] == Some(r in h.states[i].books.notes)
              && st.durable[i] == Some(r in h.states[i].durable.notes)
  {
    Undo.Story(
      Kinds(h),
      seq(|h.steps|, i requires 0 <= i < |h.steps| => NotesAt(h, i, r)),
      seq(|h.states|, i requires 0 <= i < |h.states| => Some(r in h.states[i].books.notes)),
      seq(|h.states|, i requires 0 <= i < |h.states| => Some(r in h.states[i].durable.notes)))
  }

  lemma NoteStoryIsCoherent(h: History, r: nat)
    requires Behaviour(h)
    ensures Undo.Coherent(NoteStory(h, r))
  {
    forall j: nat | j < |h.steps| ensures Undo.Moves(NoteStory(h, r), j) {
      var s, s' := h.states[j], h.states[j + 1];
      NoteShows(s, h.steps[j], r);
      Undo.MovesByValues(NoteStory(h, r), j, KindOf(s, h.steps[j]), Notes(s, h.steps[j], r), Some(r in s.books.notes),
                         Some(r in s'.books.notes), Some(r in s.durable.notes), Some(r in s'.durable.notes));
    }
  }

  // ---- The transition ----

  function Shown(b: Books, j: JobId, t: Token): Option<bool> {
    if j in b.store.jobs && b.store.jobs[j].token == Some(t) then Some(b.store.jobs[j].status.Terminal()) else None
  }

  /** This step finishes attempt `t` of job `j`. */
  predicate Finishes(s: State, step: Step, j: JobId, t: Token) {
    if step.Write? then
      InPhase(s, step.request, Checked) && s.requests[step.request].report.job == j &&
      Hits(s.books.store, Delivery.Statement(s.requests[step.request].report, step.now)) == Some(t)
    else
      step.Shortcut? && step.id == j &&
      Hits(s.books.store, FinalizeJob(step.id, step.worker, step.token, Complete, step.now)) == Some(t)
  }

  predicate FinishesAt(h: History, p: nat, j: JobId, t: Token) {
    p < |h.steps| && p < |h.states| && Finishes(h.states[p], h.steps[p], j, t)
  }

  ghost predicate StoresFit(s: State) {
    Inv(s.books.store) && Inv(s.durable.store) && s.durable.store.issued <= s.books.store.issued
  }

  lemma StepKeepsStores(s: State, step: Step)
    requires StoresFit(s)
    ensures StoresFit(Next(s, step)) && s.books.store.issued <= Next(s, step).books.store.issued
  {
    match step
    case Elsewhere(st) => StepKeepsInv(s.books.store, st);
    case Shortcut(id, w, token, now) => StepKeepsInv(s.books.store, FinalizeJob(id, w, token, Complete, now));
    case Write(r, now) =>
      if r in s.requests { StepKeepsInv(s.books.store, Delivery.Statement(s.requests[r].report, now)); }
    case _ =>
  }

  lemma {:induction false} StoresHold(h: History, m: nat, n: nat)
    requires Behaviour(h) && m <= n < |h.states|
    ensures StoresFit(h.states[n]) && h.states[m].books.store.issued <= h.states[n].books.store.issued
    decreases n
  {
    if n > 0 {
      StoresHold(h, if m < n then m else n - 1, n - 1);
      StepKeepsStores(h.states[n - 1], h.steps[n - 1]);
    }
  }

  /** A statement that is no terminal report leaves the kind of every attempt. */
  lemma QuietShows(s: Store, st: Statement, j: JobId, t: Token)
    requires Inv(s) && !st.FinalizeJob? && j in Apply(s, st).jobs && Apply(s, st).jobs[j].token == Some(t)
    ensures (j in s.jobs && s.jobs[j].token == Some(t) && Apply(s, st).jobs[j].status == s.jobs[j].status)
            || (t == s.issued && Apply(s, st).jobs[j].status.Active())
  {
    RowKeepsShape(s, st, j);
    if j in s.jobs && s.jobs[j].token == Some(t) { SameTokenSameKind(s, st, j); }
  }

  /** What one step does to attempt `t` of job `j`. */
  ghost predicate AttemptMoves(s: State, step: Step, j: JobId, t: Token) {
    var s' := Next(s, step);
    && Undo.ValuesMove(KindOf(s, step), Finishes(s, step, j, t), Shown(s.books, j, t), Shown(s'.books, j, t),
                       Shown(s.durable, j, t), Shown(s'.durable, j, t))
    && (!KindOf(s, step).RollsBack? && Shown(s.books, j, t).None? && Shown(s'.books, j, t).Some? ==>
          t == s.books.store.issued)
  }

  lemma FinishShows(s: State, step: Step, j: JobId, t: Token)
    requires StoresFit(s)
    ensures AttemptMoves(s, step, j, t)
  {
    if step.Elsewhere? {
      ElsewhereShows(s, step, j, t);
    } else if step.Shortcut? {
      HitShows(s, step, FinalizeJob(step.id, step.worker, step.token, Complete, step.now), j, t);
    } else if step.Write? && InPhase(s, step.request, Checked) {
      HitShows(s, step, Delivery.Statement(s.requests[step.request].report, step.now), j, t);
    } else {
      OtherShows(s, step, j, t);
    }
  }

  lemma OtherShows(s: State, step: Step, j: JobId, t: Token)
    requires !step.Elsewhere? && !step.Shortcut? && !(step.Write? && InPhase(s, step.request, Checked))
    ensures AttemptMoves(s, step, j, t)
  {
    var s' := Next(s, step);
    assert s'.books.store == s.books.store || s'.books.store.jobs == s.durable.store.jobs;
  }

  lemma ElsewhereShows(s: State, step: Step, j: JobId, t: Token)
    requires StoresFit(s) && step.Elsewhere?
    ensures AttemptMoves(s, step, j, t)
  {
    if !step.st.FinalizeJob? && Shown(Next(s, step).books, j, t).Some? { QuietShows(s.books.store, step.st, j, t); }
  }

  lemma HitShows(s: State, step: Step, st: Statement, j: JobId, t: Token)
    requires StoresFit(s) && st.FinalizeJob?
    requires || (step.Shortcut? && st == FinalizeJob(step.id, step.worker, step.token, Complete, step.now))
             || (step.Write? && InPhase(s, step.request, Checked) &&
                 st == Delivery.Statement(s.requests[step.request].report, step.now))
    ensures AttemptMoves(s, step, j, t)
  {
    if Hits(s.books.store, st).Some? { HitFinishes(s.books.store, st); }
  }

  function AttemptStory(h: History, j: JobId, t: Token): (st: Undo.Story)
    requires |h.states| == |h.steps| + 1
    ensures st.Shaped() && st.kinds == Kinds(h)
    ensures forall i: nat | i < |h.steps| :: st.sets[i] == FinishesAt(h, i, j, t)
    ensures forall i: nat | i < |h.states| ::
              st.pending[i] == Shown(h.states[i].books, j, t) && st.durable[i] == Shown(h.states[i].durable, j, t)
  {
    Undo.Story(
      Kinds(h),
      seq(|h.steps|, i requires 0 <= i < |h.steps| => FinishesAt(h, i, j, t)),
      seq(|h.states|, i requires 0 <= i < |h.states| => Shown(h.states[i].books, j, t)),
      seq(|h.states|, i requires 0 <= i < |h.states| => Shown(h.states[i].durable, j, t)))
  }

  lemma FinishedIsIssued(s: State, step: Step, j: JobId, t: Token)
    requires StoresFit(s) && Finishes(s, step, j, t)
    ensures t < s.books.store.issued
  {
    if step.Write? {
      HitFinishes(s.books.store, Delivery.Statement(s.requests[step.request].report, step.now));
    } else {
      HitFinishes(s.books.store, FinalizeJob(step.id, step.worker, step.token, Complete, step.now));
    }
  }

  lemma NotFinishedYet(h: History, j: JobId, t: Token, n: nat)
    requires Behaviour(h) && n < |h.states| && h.states[n].books.store.issued <= t
    ensures forall p: nat | p < n :: !FinishesAt(h, p, j, t)
  {
    forall p: nat | p < n ensures !FinishesAt(h, p, j, t) {
      StoresHold(h, p, n);
      StoresHold(h, p, p);
      if FinishesAt(h, p, j, t) { FinishedIsIssued(h.states[p], h.steps[p], j, t); }
    }
  }

  lemma AttemptStoryMoves(h: History, j: JobId, t: Token, n: nat)
    requires Behaviour(h) && n < |h.steps|
    ensures Undo.Moves(AttemptStory(h, j, t), n)
  {
    var s, s' := h.states[n], h.states[n + 1];
    StoresHold(h, n, n);
    FinishShows(s, h.steps[n], j, t);
    if t == s.books.store.issued { NotFinishedYet(h, j, t, n); }
    Undo.MovesByValues(AttemptStory(h, j, t), n, KindOf(s, h.steps[n]), Finishes(s, h.steps[n], j, t),
                       Shown(s.books, j, t), Shown(s'.books, j, t), Shown(s.durable, j, t), Shown(s'.durable, j, t));
  }

  lemma AttemptStoryIsCoherent(h: History, j: JobId, t: Token)
    requires Behaviour(h)
    ensures Undo.Coherent(AttemptStory(h, j, t))
  {
    forall n: nat | n < |h.steps| ensures Undo.Moves(AttemptStory(h, j, t), n) { AttemptStoryMoves(h, j, t, n); }
  }

  // ---- What survives ----

  ghost predicate FinishStands(h: History, p: nat, n: nat, j: JobId, t: Token)
    requires |h.states| == |h.steps| + 1
  {
    p < n && FinishesAt(h, p, j, t) && !Undone(h, p, n)
  }

  ghost predicate FinishStandsForGood(h: History, p: nat, n: nat, j: JobId, t: Token)
    requires |h.states| == |h.steps| + 1
  {
    FinishStands(h, p, n, j, t) && Undo.Committed(Kinds(h), p, n)
  }

  ghost predicate SyncStands(h: History, p: nat, n: nat, r: nat)
    requires |h.states| == |h.steps| + 1
  {
    p < n && SyncsAt(h, p, r) && !Undone(h, p, n)
  }

  /** The outcome that a finishing step records. */
  function OutcomeOf(s: State, step: Step): Outcome {
    if step.Write? && step.request in s.requests then s.requests[step.request].report.outcome else Complete
  }

  /** A row that carries the attempt shows this outcome. */
  predicate RowIs(b: Books, j: JobId, t: Token, outcome: JobStatus) {
    j in b.store.jobs && b.store.jobs[j].token == Some(t) ==> b.store.jobs[j].status == outcome
  }

  lemma StatementKeepsOutcome(s: State, step: Step, j: JobId, t: Token, outcome: Outcome)
    requires StoresFit(s) && RowIs(s.books, j, t, outcome) && t < s.books.store.issued && !KindOf(s, step).RollsBack?
    ensures RowIs(Next(s, step).books, j, t, outcome)
  {
    if step.Elsewhere? && !step.st.FinalizeJob? {
      if Shown(Next(s, step).books, j, t).Some? { QuietShows(s.books.store, step.st, j, t); }
    } else if step.Shortcut? {
      TerminalKeepsOutcome(s.books, FinalizeJob(step.id, step.worker, step.token, Complete, step.now), j, t, outcome);
    } else if step.Write? && InPhase(s, step.request, Checked) {
      TerminalKeepsOutcome(s.books, Delivery.Statement(s.requests[step.request].report, step.now), j, t, outcome);
    }
  }

  /** A finished attempt is not finished again. */
  lemma TerminalKeepsOutcome(b: Books, st: Statement, j: JobId, t: Token, outcome: Outcome)
    requires Inv(b.store) && st.FinalizeJob? && RowIs(b, j, t, outcome)
    ensures Hits(b.store, st).Some? ==> RowIs(Enter(b, st), j, t, outcome)
  {
    if Hits(b.store, st).Some? { HitFinishes(b.store, st); }
  }

  /** The finish at step `p` as state `n` shows it. */
  ghost predicate Shows(h: History, p: nat, n: nat, j: JobId, t: Token, outcome: Outcome)
    requires |h.states| == |h.steps| + 1 && p < n < |h.states|
  {
    && t < h.states[n].books.store.issued
    && (!Undone(h, p, n) ==>
          && RowIs(h.states[n].books, j, t, outcome)
          && (Undo.Committed(Kinds(h), p, n) ==> RowIs(h.states[n].durable, j, t, outcome)))
  }

  lemma ShowsOneOn(h: History, p: nat, n: nat, j: JobId, t: Token, outcome: Outcome)
    requires Behaviour(h) && p < n < |h.steps| && Shows(h, p, n, j, t, outcome)
    ensures Shows(h, p, n + 1, j, t, outcome)
  {
    StoresHold(h, n, n + 1);
    StoresHold(h, n, n);
    Undo.OneStepOn(Kinds(h), p, n);
    if RowIs(h.states[n].books, j, t, outcome) && !Kinds(h)[n].RollsBack? {
      StatementKeepsOutcome(h.states[n], h.steps[n], j, t, outcome);
    }
    BooksMove(h.states[n], h.steps[n]);
  }

  /** What commits and rollbacks do to the books. */
  lemma BooksMove(s: State, step: Step)
    ensures var s', kind := Next(s, step), KindOf(s, step);
            && (kind.RollsBack? ==> s'.books.store.jobs == s.durable.store.jobs)
            && s'.durable == if kind.Commits? then s'.books else s.durable
  {
  }

  lemma ShowsHolds(h: History, p: nat, n: nat, j: JobId, t: Token)
    requires Behaviour(h) && FinishesAt(h, p, j, t) && p < n < |h.states|
    ensures Shows(h, p, n, j, t, OutcomeOf(h.states[p], h.steps[p]))
  {
    var outcome := OutcomeOf(h.states[p], h.steps[p]);
    ShowsAtFirst(h, p, j, t);
    forall m: nat | p < m < |h.steps| && Shows(h, p, m, j, t, outcome) ensures Shows(h, p, m + 1, j, t, outcome) {
      ShowsOneOn(h, p, m, j, t, outcome);
    }
    ShowsByInduction(h, p, n, j, t, outcome);
  }

  lemma {:induction false} ShowsByInduction(h: History, p: nat, n: nat, j: JobId, t: Token, outcome: Outcome)
    requires |h.states| == |h.steps| + 1 && p < n < |h.states| && Shows(h, p, p + 1, j, t, outcome)
    requires forall m: nat | p < m < |h.steps| && Shows(h, p, m, j, t, outcome) :: Shows(h, p, m + 1, j, t, outcome)
    ensures Shows(h, p, n, j, t, outcome)
    decreases n
  {
    if p + 1 < n { ShowsByInduction(h, p, n - 1, j, t, outcome); }
  }

  lemma ShowsAtFirst(h: History, p: nat, j: JobId, t: Token)
    requires Behaviour(h) && FinishesAt(h, p, j, t)
    ensures Shows(h, p, p + 1, j, t, OutcomeOf(h.states[p], h.steps[p]))
  {
    StoresHold(h, p, p + 1);
    StoresHold(h, p, p);
    FinishedIsIssued(h.states[p], h.steps[p], j, t);
    FinishRecords(h.states[p], h.steps[p], j, t);
  }

  lemma FinishRecords(s: State, step: Step, j: JobId, t: Token)
    requires StoresFit(s) && Finishes(s, step, j, t)
    ensures RowIs(Next(s, step).books, j, t, OutcomeOf(s, step))
  {
    if step.Write? {
      HitFinishes(s.books.store, Delivery.Statement(s.requests[step.request].report, step.now));
    } else {
      HitFinishes(s.books.store, FinalizeJob(step.id, step.worker, step.token, Complete, step.now));
    }
  }

  /** In every run, a row that carries an attempt shows it finished exactly when
      some terminal write of that attempt stands, and then with the outcome of that
      write; durably exactly when one stands and was committed. */
  lemma FinishedIffOneStands(h: History, n: nat, j: JobId, t: Token)
    requires Behaviour(h) && n < |h.states|
    ensures var b := h.states[n].books;
            j in b.store.jobs && b.store.jobs[j].token == Some(t) ==>
              && (b.store.jobs[j].status.Terminal() <==> exists p: nat :: FinishStands(h, p, n, j, t))
              && forall p: nat | FinishStands(h, p, n, j, t) ::
                   b.store.jobs[j].status == OutcomeOf(h.states[p], h.steps[p])
    ensures var d := h.states[n].durable;
            j in d.store.jobs && d.store.jobs[j].token == Some(t) ==>
              && (d.store.jobs[j].status.Terminal() <==> exists p: nat :: FinishStandsForGood(h, p, n, j, t))
              && forall p: nat | FinishStandsForGood(h, p, n, j, t) ::
                   d.store.jobs[j].status == OutcomeOf(h.states[p], h.steps[p])
  {
    var st := AttemptStory(h, j, t);
    AttemptStoryIsCoherent(h, j, t);
    Undo.HoldsIffOneStands(st, n);
    if Undo.OneStands(st, n) { var p: nat :| Undo.Stands(st, p, n); assert FinishStands(h, p, n, j, t); }
    if p: nat :| FinishStands(h, p, n, j, t) { assert Undo.Stands(st, p, n); }
    if Undo.OneStandsForGood(st, n) {
      var p: nat :| Undo.StandsForGood(st, p, n);
      assert FinishStandsForGood(h, p, n, j, t);
    }
    if p: nat :| FinishStandsForGood(h, p, n, j, t) { assert Undo.StandsForGood(st, p, n); }
    forall p: nat | FinishStands(h, p, n, j, t)
      ensures Shows(h, p, n, j, t, OutcomeOf(h.states[p], h.steps[p]))
    {
      ShowsHolds(h, p, n, j, t);
    }
  }

  ghost predicate SyncStandsForGood(h: History, p: nat, n: nat, r: nat)
    requires |h.states| == |h.steps| + 1
  {
    SyncStands(h, p, n, r) && Undo.Committed(Kinds(h), p, n)
  }

  /** And the catalog has the write of a request exactly when it stands. */
  lemma ToldIffItStands(h: History, n: nat, r: nat)
    requires Behaviour(h) && n < |h.states|
    ensures Wrote(h.states[n].books, r) <==> exists p: nat :: SyncStands(h, p, n, r)
    ensures Wrote(h.states[n].durable, r) <==> exists p: nat :: SyncStandsForGood(h, p, n, r)
  {
    var st := WriteStory(h, r);
    WriteStoryIsCoherent(h, r);
    Undo.HoldsIffOneStands(st, n);
    if Undo.OneStands(st, n) { var p: nat :| Undo.Stands(st, p, n); assert SyncStands(h, p, n, r); }
    if p: nat :| SyncStands(h, p, n, r) { assert Undo.Stands(st, p, n); }
    if Undo.OneStandsForGood(st, n) {
      var p: nat :| Undo.StandsForGood(st, p, n);
      assert SyncStandsForGood(h, p, n, r);
    }
    if p: nat :| SyncStandsForGood(h, p, n, r) { assert Undo.StandsForGood(st, p, n); }
  }

  ghost predicate NoteStands(h: History, p: nat, n: nat, r: nat)
    requires |h.states| == |h.steps| + 1
  {
    p < n && NotesAt(h, p, r) && !Undone(h, p, n)
  }

  /** So does the other statement, by itself: a rollback between the two leaves one. */
  lemma NotedIffItStands(h: History, n: nat, r: nat)
    requires Behaviour(h) && n < |h.states|
    ensures r in h.states[n].books.notes <==> exists p: nat :: NoteStands(h, p, n, r)
  {
    var st := NoteStory(h, r);
    NoteStoryIsCoherent(h, r);
    Undo.HoldsIffOneStands(st, n);
    if Undo.OneStands(st, n) { var p: nat :| Undo.Stands(st, p, n); assert NoteStands(h, p, n, r); }
    if p: nat :| NoteStands(h, p, n, r) { assert Undo.Stands(st, p, n); }
  }

  // ---- A request makes each of its writes once ----

  function Rank(phase: Phase): nat {
    match phase
    case Arrived => 0
    case Checked => 1
    case Finalized(_) => 2
    case Lost => 2
    case Synced(_) => 3
    case Answered(_) => 4
  }

  lemma PhasesAdvance(s: State, step: Step, r: nat)
    requires r in s.requests
    ensures r in Next(s, step).requests && Rank(s.requests[r].phase) <= Rank(Next(s, step).requests[r].phase)
    ensures Syncs(s, step, r) ==> Rank(s.requests[r].phase) < Rank(Next(s, step).requests[r].phase)
  {
  }

  /** The phases of a request along a run only go forward. */
  ghost predicate Forward(h: History, r: nat) {
    && |h.states| == |h.steps| + 1
    && forall n: nat | n < |h.steps| && r in h.states[n].requests :: ForwardAt(h, n, r)
  }

  predicate ForwardAt(h: History, n: nat, r: nat)
    requires n + 1 < |h.states| && r in h.states[n].requests
  {
    && r in h.states[n + 1].requests
    && Rank(h.states[n].requests[r].phase) <= Rank(h.states[n + 1].requests[r].phase)
  }

  lemma PhasesGoForward(h: History, r: nat)
    requires Behaviour(h)
    ensures Forward(h, r)
  {
    forall n: nat | n < |h.steps| && r in h.states[n].requests ensures ForwardAt(h, n, r) {
      PhasesAdvance(h.states[n], h.steps[n], r);
    }
  }

  lemma {:induction false} RanksGrow(h: History, m: nat, n: nat, r: nat)
    requires Forward(h, r) && m <= n < |h.states| && r in h.states[m].requests
    ensures r in h.states[n].requests && Rank(h.states[m].requests[r].phase) <= Rank(h.states[n].requests[r].phase)
    decreases n
  {
    if m < n {
      RanksGrow(h, m, n - 1, r);
      assert ForwardAt(h, n - 1, r);
    }
  }

  lemma OneSync(h: History, m: nat, n: nat, r: nat)
    requires Behaviour(h) && SyncsAt(h, m, r) && SyncsAt(h, n, r)
    ensures m == n
  {
    PhasesGoForward(h, r);
    PhasesAdvance(h.states[m], h.steps[m], r);
    PhasesAdvance(h.states[n], h.steps[n], r);
    if m < n { RanksGrow(h, m + 1, n, r); }
    if n < m { RanksGrow(h, n + 1, m, r); }
  }

  /** A report's transaction: the transition at step `i`, the catalog write at step
      `c`, the commit and the acknowledgement at step `k`. */
  ghost predicate Transaction(h: History, i: nat, c: nat, k: nat, r: nat, j: JobId, t: Token) {
    && Behaviour(h) && i < c < k < |h.steps|
    && h.steps[i].Write? && h.steps[i].request == r && FinishesAt(h, i, j, t)
    && SyncsAt(h, c, r)
    && h.steps[k] == Seal(r) && r in h.states[k].requests && h.states[k].requests[r].phase.Synced?
  }

  /** What a report's transaction leaves durable when it ends, acknowledged. The
      catalog write is there exactly when it was not undone, and so is each of the
      two statements it consists of. If the row still
      carries the attempt and nobody else finished it, it shows the reported outcome
      exactly when the transition was not undone, and is not finished otherwise; so
      the row and the catalog tell the same story exactly when both or neither of
      the two writes were undone, and the report is recorded whole exactly when
      neither was. */
  lemma ReportIsWhole(h: History, i: nat, c: nat, k: nat, r: nat, j: JobId, t: Token)
    requires Transaction(h, i, c, k, r, j, t)
    ensures h.states[k + 1].durable == h.states[k].books
    ensures h.states[k + 1].requests[r].phase == Answered(Status(204))
    ensures Wrote(h.states[k + 1].durable, r) <==> !Undone(h, c, k)
    ensures r in h.states[k + 1].durable.notes <==> exists p: nat :: NoteStands(h, p, k, r)
    ensures var b, outcome := h.states[k + 1].durable, h.states[i].requests[r].report.outcome;
            j in b.store.jobs && b.store.jobs[j].token == Some(t) ==>
              && (!Undone(h, i, k) ==> b.store.jobs[j].status == outcome)
              && (Undone(h, i, k) && (forall p: nat | p < k && FinishesAt(h, p, j, t) :: p == i) ==>
                    !b.store.jobs[j].status.Terminal())
  {
    SealCommits(h.states[k], h.steps[k], r);
    NotedIffItStands(h, k, r);
    ToldOnce(h, c, k, r);
    FinishedIffOneStands(h, k, j, t);
    if !Undone(h, i, k) { assert FinishStands(h, i, k, j, t); }
  }

  lemma SealCommits(s: State, step: Step, r: nat)
    requires step == Seal(r) && r in s.requests && s.requests[r].phase.Synced?
    ensures var s' := Next(s, step);
            s'.durable == s.books && r in s'.requests && s'.requests[r].phase == Answered(Status(204))
  {
  }

  lemma ToldOnce(h: History, c: nat, k: nat, r: nat)
    requires Behaviour(h) && c < k < |h.states| && SyncsAt(h, c, r)
    ensures Wrote(h.states[k].books, r) <==> !Undone(h, c, k)
  {
    ToldIffItStands(h, k, r);
    if !Undone(h, c, k) { assert SyncStands(h, c, k, r); }
    if p: nat :| SyncStands(h, p, k, r) { OneSync(h, p, c, r); }
  }

  /** In particular a transaction that nobody rolls back into is whole. */
  lemma QuietTransactionIsWhole(h: History, i: nat, c: nat, k: nat, r: nat, j: JobId, t: Token)
    requires Transaction(h, i, c, k, r, j, t)
    requires forall l: nat | i < l < k :: !KindOf(h.states[l], h.steps[l]).RollsBack?
    ensures var b := h.states[k + 1].durable;
            Wrote(b, r) && RowIs(b, j, t, h.states[i].requests[r].report.outcome)
  {
    assert !Undone(h, i, k) && !Undone(h, c, k);
    ReportIsWhole(h, i, c, k, r, j, t);
  }

  // ---- A torn report ----

  const RUNNING := Job(Transcoding, Some(1), Some(0), 0.0, 0, false, 0, 1)

  ghost function ThenStep(h: History, step: Step, s: State): (longer: History)
    requires Behaviour(h) && s == Next(h.states[|h.steps|], step)
    ensures Behaviour(longer) && |longer.steps| == |h.steps| + 1
  {
    History(h.states + [s], h.steps + [step])
  }

  /** Worker 1 runs job 0, durably, and its report of completion has arrived. */
  lemma ReportedRun(running: Books, p: Report) returns (h: History)
    requires p == Report(0, 1, Some(0), Complete)
    requires running == Books(Store(map[0 := RUNNING], map[], 1), [], {}, {})
    ensures Behaviour(h) && |h.steps| == 5
    ensures h.states[5] == State(running, running, map[7 := Request(p, Checked, 3)], map[], None, 5)
  {
    h := RunningRun(running);
    h := ThenStep(h, Stray(7, p), State(running, running, map[7 := Request(p, Arrived, 3)], map[], None, 4));
    h := ThenStep(h, Read(7), State(running, running, map[7 := Request(p, Checked, 3)], map[], None, 5));
  }

  lemma RunningRun(running: Books) returns (h: History)
    requires running == Books(Store(map[0 := RUNNING], map[], 1), [], {}, {})
    ensures Behaviour(h) && |h.steps| == 3 && h.states[3] == State(running, running, map[], map[], None, 3)
  {
    var job := running.store.jobs[0].(status := Pending, worker := None, token := None, updated := 0);
    var waiting := Books(Store(map[0 := job], map[], 0), [], {}, {});
    h := History([START], []);
    h := ThenStep(h, Elsewhere(CreateJob(0, 0, false, 0)), State(waiting, NO_BOOKS, map[], map[], None, 1));
    h := ThenStep(h, Elsewhere(ClaimJob(1, {0}, true, 0, 1)), State(running, NO_BOOKS, map[], map[], None, 2));
    h := ThenStep(h, Commit, State(running, running, map[], map[], None, 3));
  }

  /** A rollback between the transition and the catalog write: the report is
      acknowledged and the catalog told, and the job is still running. */
  lemma ReportCanBeTorn() returns (h: History)
    ensures Transaction(h, 5, 7, 8, 7, 0, 0) && Undone(h, 5, 8) && !Undone(h, 7, 8)
    ensures h.states[9].requests[7].phase == Answered(Status(204)) && Wrote(h.states[9].durable, 7)
    ensures 0 in h.states[9].durable.store.jobs && h.states[9].durable.store.jobs[0].status.Transcoding?
  {
    var p := Report(0, 1, Some(0), Complete);
    var running := Books(Store(map[0 := RUNNING], map[], 1), [], {}, {});
    var told := running.(effects := [Effect(7, 0, 0, Complete)]);
    h := SealedRun(running, told, p);
    assert Kinds(h)[6].RollsBack? && !Undo.Committed(Kinds(h), 5, 6);
    assert told.effects[0].request == 7;
  }

  lemma SealedRun(running: Books, told: Books, p: Report) returns (h: History)
    requires p == Report(0, 1, Some(0), Complete)
    requires running == Books(Store(map[0 := RUNNING], map[], 1), [], {}, {})
    requires told == running.(effects := [Effect(7, 0, 0, Complete)])
    ensures Behaviour(h) && |h.steps| == 9 && h.steps[5] == Step.Write(7, 2) && h.steps[6] == Rollback
    ensures FinishesAt(h, 5, 0, 0) && SyncsAt(h, 7, 7) && h.steps[8] == Seal(7)
    ensures 7 in h.states[8].requests && h.states[8].requests[7].phase.Synced?
    ensures h.states[9] == State(told, told, map[7 := Request(p, Answered(Status(204)), 3)], map[], None, 9)
  {
    h := RolledBackRun(running, p);
    h := ThenStep(h, Sync(7), State(told, running, map[7 := Request(p, Synced(0), 3)], map[], None, 8));
    h := ThenStep(h, Seal(7), State(told, told, map[7 := Request(p, Answered(Status(204)), 3)], map[], None, 9));
  }

  /** The transition is made, and rolled back by somebody else. */
  lemma RolledBackRun(running: Books, p: Report) returns (h: History)
    requires p == Report(0, 1, Some(0), Complete)
    requires running == Books(Store(map[0 := RUNNING], map[], 1), [], {}, {})
    ensures Behaviour(h) && |h.steps| == 7 && h.steps[5] == Step.Write(7, 2) && h.steps[6] == Rollback
    ensures FinishesAt(h, 5, 0, 0)
    ensures h.states[7] == State(running, running, map[7 := Request(p, Finalized(0), 3)], map[], None, 7)
  {
    var job := running.store.jobs[0];
    var done := Books(Store(map[0 := job.(status := Complete, updated := 2)], map[], 1), [], {}, {});
    h := ReportedRun(running, p);
    h := ThenStep(h, Step.Write(7, 2), State(done, running, map[7 := Request(p, Finalized(0), 3)], map[], None, 6));
    h := ThenStep(h, Rollback, State(running, running, map[7 := Request(p, Finalized(0), 3)], map[], None, 7));
  }
}

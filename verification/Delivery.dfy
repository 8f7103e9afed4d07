/** Terminal reports from end to end: a worker's journal on one side, the
    scheduler's report handlers on the other. A handler reads the job row, then
    opens a transaction that issues the conditional write and, if that won, the
    catalog write, and commits; when the write matched nothing it reads again.
    Anything may happen between those steps, and on the shared connection of the
    SQLite backend anybody's commit or rollback takes in everything pending. */
module Delivery {
  import opened Options
  import opened Tables
  import opened Attempts

  datatype Report = Report(job: JobId, worker: WorkerId, token: Option<Token>, outcome: Outcome)

  /** An HTTP status, or a failure below HTTP. */
  datatype Answer = Status(code: int) | NoAnswer

  datatype ErrorClass = Retryable | Auth | Refused

  function ClassifyError(a: Answer): ErrorClass {
    match a
    case NoAnswer => Retryable
    case Status(code) =>
      if code == 401 then Auth else if 400 <= code < 500 then Refused else Retryable
  }

  predicate Acknowledged(a: Answer) {
    a.Status? && 200 <= a.code < 300
  }

  /** The journal lets an entry go on an acknowledgement or on a refusal. */
  predicate Settles(a: Answer) {
    Acknowledged(a) || ClassifyError(a).Refused?
  }

  /** A transaction is open from `Finalized` to `Synced`. */
  datatype Phase = Arrived | Checked | Finalized(token: Token) | Synced(token: Token) | Lost | Answered(answer: Answer)
  {
    predicate Open() { Finalized? || Synced? }
  }

  /** `since` is the state the request was sent in. */
  datatype Request = Request(report: Report, phase: Phase, since: nat)

  /** The catalog write (and skip record) that goes with a transition. */
  datatype Effect = Effect(request: nat, job: JobId, token: Token, outcome: JobStatus)

  /** What is in the database: the tables, the catalog status writes, the attempts
      that the dedup shortcut completed without one, and the requests whose other
      catalog statement (the skip record, the columns that describe the output) was
      made. */
  datatype Books = Books(store: Store, effects: seq<Effect>, shortcuts: set<Token>, notes: set<nat>)

  datatype Exchange = Exchange(request: nat, entry: nat)

  /** `books` is what statements see and change, `durable` what was committed. */
  datatype State = State(
    books: Books,
    durable: Books,
    requests: map<nat, Request>,
    journal: map<nat, Report>,
    sending: Option<Exchange>,
    age: nat)

  const NO_BOOKS := Books(EMPTY_STORE, [], {}, {})
  const START := State(NO_BOOKS, NO_BOOKS, map[], map[], None, 0)

  datatype Step =
      /** Any statement that is not a terminal report. */
    | Elsewhere(st: Statement)
      /** The dedup shortcut: a completion without a catalog write. */
    | Shortcut(id: JobId, worker: WorkerId, token: Option<Token>, now: Instant)
    | Append(entry: nat, report: Report)
      /** The worker sends a journaled report and waits for the answer. */
    | Send(entry: nat, request: nat)
      /** A report nobody waits for: a duplicate, another worker's, a late one. */
    | Stray(request: nat, report: Report)
    | Read(request: nat)
      /** The conditional write, the two catalog statements in either order, and
          the commit of the block. */
    | Write(request: nat, now: Instant)
    | Sync(request: nat)
    | Annotate(request: nat)
    | Seal(request: nat)
    | Reread(request: nat)
      /** Refused before the handler (token, validation), or broken at any point;
          inside the transaction the block rolls back. */
    | Fault(request: nat, answer: Answer)
      /** Any other request's commit or rollback. */
    | Commit
    | Rollback
    | Receive
      /** The worker process dies: its journal stays, its exchange does not. */
    | WorkerCrash
    | Quarantine(entry: nat)

  /** The guard of the report handlers, on the row as it is read. */
  function Checks(s: Store, p: Report): Phase {
    if p.job !in s.jobs then Answered(Status(404))
    else if s.jobs[p.job].worker != Some(p.worker) then Answered(Status(403))
    else if s.jobs[p.job].status == p.outcome then Answered(Status(204))
    else if s.jobs[p.job].status.Terminal() then Answered(Status(409))
    else if p.token.None? && p.worker in s.workers && s.workers[p.worker].sendsToken then Answered(Status(403))
    else Checked
  }

  /** The answer to a report whose conditional write matched no row. */
  function LostAnswer(s: Store, p: Report): Answer {
    if p.job !in s.jobs then Status(404)
    else if s.jobs[p.job].status == p.outcome then Status(204)
    else if s.jobs[p.job].status.Terminal() then Status(409)
    else Status(403)
  }

  function Statement(p: Report, now: Instant): Statement {
    FinalizeJob(p.job, p.worker, p.token, p.outcome, now)
  }

  predicate InPhase(s: State, r: nat, phase: Phase) {
    r in s.requests && s.requests[r].phase == phase
  }

  function Move(s: State, r: nat, phase: Phase): State
    requires r in s.requests
  {
    s.(requests := s.requests[r := s.requests[r].(phase := phase)])
  }

  function Enter(b: Books, st: Statement): Books {
    b.(store := Apply(b.store, st))
  }

  /** Back to what is durable; the tokens handed out stay handed out. */
  function RolledBack(s: State): State {
    s.(books := s.durable.(store := s.durable.store.(issued := s.books.store.issued)))
  }

  /** The attempt that a terminal statement finishes, if it reaches one. */
  function Hits(s: Store, st: Statement): Option<Token>
    requires IsReport(st)
  {
    if Reaches(s, st) then s.jobs[st.id].token else None
  }

  function Act(s: State, step: Step): State {
    match step
    case Elsewhere(st) =>
      if st.FinalizeJob? then s else s.(books := Enter(s.books, st))
    case Shortcut(id, w, token, now) =>
      var st := FinalizeJob(id, w, token, Complete, now);
      var hit := Hits(s.books.store, st);
      if hit.Some? then
        s.(books := Enter(s.books, st).(shortcuts := s.books.shortcuts + {hit.value}))
      else s
    case Append(e, report) =>
      if e in s.journal || s.sending.Some? then s else s.(journal := s.journal[e := report])
    case Send(e, r) =>
      if e in s.journal && r !in s.requests && s.sending.None? then
        s.(requests := s.requests[r := Request(s.journal[e], Arrived, s.age)], sending := Some(Exchange(r, e)))
      else s
    case Stray(r, report) =>
      if r in s.requests then s else s.(requests := s.requests[r := Request(report, Arrived, s.age)])
    case Read(r) =>
      if InPhase(s, r, Arrived) then Move(s, r, Checks(s.books.store, s.requests[r].report)) else s
    case Write(r, now) =>
      if !InPhase(s, r, Checked) then s
      else
        var st := Statement(s.requests[r].report, now);
        var hit := Hits(s.books.store, st);
        if hit.Some? then Move(s, r, Finalized(hit.value)).(books := Enter(s.books, st)) else Move(s, r, Lost)
    case Sync(r) =>
      if r in s.requests && s.requests[r].phase.Finalized? then
        var p, t := s.requests[r].report, s.requests[r].phase.token;
        Move(s, r, Synced(t)).(
          books := s.books.(effects := s.books.effects + [Effect(r, p.job, t, p.outcome)]))
      else s
    case Annotate(r) =>
      if r in s.requests && s.requests[r].phase.Open() then
        s.(books := s.books.(notes := s.books.notes + {r}))
      else s
    case Seal(r) =>
      if r in s.requests && s.requests[r].phase.Synced? then
        Move(s, r, Answered(Status(204))).(durable := s.books)
      else s
    case Reread(r) =>
      if InPhase(s, r, Lost) then Move(s, r, Answered(LostAnswer(s.books.store, s.requests[r].report))) else s
    case Fault(r, answer) =>
      if r in s.requests && !Acknowledged(answer) && (ClassifyError(answer).Retryable? || InPhase(s, r, Arrived)) then
        Move(if s.requests[r].phase.Open() then RolledBack(s) else s, r, Answered(answer))
      else s
    case Commit => s.(durable := s.books)
    case Rollback => RolledBack(s)
    case Receive =>
      if s.sending.Some? && s.sending.value.request in s.requests &&
         s.requests[s.sending.value.request].phase.Answered? then
        var settled := Settles(s.requests[s.sending.value.request].phase.answer);
        s.(sending := None, journal := if settled then s.journal - {s.sending.value.entry} else s.journal)
      else s
    case WorkerCrash => s.(sending := None)
    case Quarantine(e) => s.(journal := s.journal - {e})
  }

  function Next(s: State, step: Step): State {
    Act(s, step).(age := s.age + 1)
  }

  datatype History = History(states: seq<State>, steps: seq<Step>)

  ghost predicate Behaviour(h: History) {
    && |h.states| == |h.steps| + 1
    && h.states[0] == START
    && forall i | 0 <= i < |h.steps| :: h.states[i + 1] == Next(h.states[i], h.steps[i])
  }

  // ---- What terminal reports do, and what nothing else does ----

  /** A terminal statement that reaches a row finishes its running attempt. */
  lemma HitFinishes(s: Store, st: Statement)
    requires Inv(s) && st.FinalizeJob? && Hits(s, st).Some?
    ensures st.id in s.jobs && s.jobs[st.id].status.Active() && s.jobs[st.id].token == Hits(s, st)
    ensures Apply(s, st).issued == s.issued
    ensures Apply(s, st).jobs == s.jobs[st.id := s.jobs[st.id].(status := st.outcome, updated := st.now)]
  {
  }

  /** Only a terminal report turns a running attempt into a finished one. */
  lemma SameTokenSameKind(s: Store, st: Statement, j: JobId)
    requires Inv(s) && !st.FinalizeJob? && j in s.jobs && j in Apply(s, st).jobs
    requires s.jobs[j].token.Some? && s.jobs[j].token == Apply(s, st).jobs[j].token
    ensures s.jobs[j].status == Apply(s, st).jobs[j].status
  {
    RowKeepsShape(s, st, j);
  }

  /** Nothing else writes the catalog: a step either leaves the pending writes as
      they are, or is the catalog write of a request that won its transition, or a
      rollback to the durable ones. */
  lemma OnlyWinnersWrite(s: State, step: Step)
    ensures var s' := Next(s, step);
            || s'.books.effects == s.books.effects
            || (step.Sync? && step.request in s.requests && s.requests[step.request].phase.Finalized? &&
                s'.books.effects == s.books.effects +
                  [Effect(step.request, s.requests[step.request].report.job, s.requests[step.request].phase.token,
                          s.requests[step.request].report.outcome)])
            || ((step.Rollback? || step.Fault?) && s'.books.effects == s.durable.effects)
  {
  }

  // ---- An acknowledgement has a witness ----

  /** At state `m` the job row held exactly the reported outcome. */
  ghost predicate Recorded(s: State, p: Report) {
    p.job in s.books.store.jobs && s.books.store.jobs[p.job].status == p.outcome
  }

  ghost predicate RecordedDuring(h: History, m: nat, n: nat, p: Report)
    requires n < |h.states|
  {
    exists i :: m <= i <= n && Recorded(h.states[i], p)
  }

  lemma {:induction false} AgeIsIndex(h: History, n: nat)
    requires Behaviour(h) && n < |h.states|
    ensures h.states[n].age == n
  {
    if n > 0 { AgeIsIndex(h, n - 1); }
  }

  /** A request whose write won, or that has been acknowledged. */
  predicate Won(phase: Phase) {
    phase.Open() || (phase.Answered? && Acknowledged(phase.answer))
  }

  /** The steps that can make a request win see or make the outcome. */
  lemma WonByHandler(s: State, step: Step, r: nat)
    requires r in Act(s, step).requests && Won(Act(s, step).requests[r].phase)
    requires !(r in s.requests && Won(s.requests[r].phase))
    ensures r in s.requests && s.requests[r].report == Act(s, step).requests[r].report
    ensures Recorded(s, s.requests[r].report) || Recorded(Act(s, step), s.requests[r].report)
  {
  }

  lemma RequestsBeginNow(s: State, step: Step, r: nat)
    requires r in s.requests || r in Act(s, step).requests
    ensures r in Act(s, step).requests
    ensures if r in s.requests
            then Act(s, step).requests[r].since == s.requests[r].since &&
                 Act(s, step).requests[r].report == s.requests[r].report
            else Act(s, step).requests[r].since == s.age && Act(s, step).requests[r].phase == Arrived
  {
  }

  lemma {:induction false} AcknowledgedMeansRecorded(h: History, n: nat, r: nat)
    requires Behaviour(h) && n < |h.states| && r in h.states[n].requests
    ensures h.states[n].requests[r].since <= n
    ensures var q := h.states[n].requests[r]; Won(q.phase) ==> RecordedDuring(h, q.since, n, q.report)
  {
    if n > 0 {
      var s, step := h.states[n - 1], h.steps[n - 1];
      AgeIsIndex(h, n - 1);
      RequestsBeginNow(s, step, r);
      if r in s.requests {
        AcknowledgedMeansRecorded(h, n - 1, r);
        if Won(h.states[n].requests[r].phase) { WonStays(h, n, r); }
      }
    }
  }

  lemma WonStays(h: History, n: nat, r: nat)
    requires Behaviour(h) && 0 < n < |h.states| && r in h.states[n - 1].requests && r in h.states[n].requests
    requires var q, q' := h.states[n - 1].requests[r], h.states[n].requests[r];
             && q'.since == q.since <= n - 1 && q'.report == q.report && Won(q'.phase)
             && (Won(q.phase) ==> RecordedDuring(h, q.since, n - 1, q.report))
    ensures RecordedDuring(h, h.states[n].requests[r].since, n, h.states[n].requests[r].report)
  {
    var q := h.states[n - 1].requests[r];
    if Won(q.phase) {
      var i :| q.since <= i <= n - 1 && Recorded(h.states[i], q.report);
      assert q.since <= i <= n && Recorded(h.states[i], q.report);
    } else {
      WonByHandler(h.states[n - 1], h.steps[n - 1], r);
      assert Recorded(h.states[n - 1], q.report) || Recorded(h.states[n], q.report);
    }
  }

  // ---- End-to-end delivery ----

  ghost predicate SendingIsCurrent(s: State) {
    s.sending.Some? ==>
      && s.sending.value.request in s.requests
      && (s.sending.value.entry in s.journal ==>
            s.requests[s.sending.value.request].report == s.journal[s.sending.value.entry])
  }

  lemma {:induction false} SendingStaysCurrent(h: History, n: nat)
    requires Behaviour(h) && n < |h.states|
    ensures SendingIsCurrent(h.states[n])
  {
    if n > 0 {
      SendingStaysCurrent(h, n - 1);
      StepKeepsSending(h.states[n - 1], h.steps[n - 1]);
    }
  }

  lemma StepKeepsSending(s: State, step: Step)
    requires SendingIsCurrent(s)
    ensures SendingIsCurrent(Next(s, step))
  {
    if s.sending.Some? { RequestsBeginNow(s, step, s.sending.value.request); }
  }

  /** Why entry `e` may leave the journal at step `n`: the outcome it reports
      was in the job row at some moment of the exchange, or the scheduler
      refused it with a 4xx other than 401, or the file was quarantined. */
  ghost predicate Accounted(h: History, n: nat, e: nat)
    requires Behaviour(h) && n < |h.steps| && e in h.states[n].journal
  {
    || h.steps[n] == Quarantine(e)
    || (&& h.steps[n].Receive? && h.states[n].sending.Some?
        && h.states[n].sending.value.request in h.states[n].requests
        && var q := h.states[n].requests[h.states[n].sending.value.request];
        && q.report == h.states[n].journal[e] && q.since <= n && q.phase.Answered? && q.phase.answer.Status?
        && (|| RecordedDuring(h, q.since, n, q.report)
            || (400 <= q.phase.answer.code < 500 && q.phase.answer.code != 401)))
  }

  lemma EndToEndDelivery(h: History, n: nat, e: nat)
    requires Behaviour(h) && n < |h.steps|
    requires e in h.states[n].journal && e !in h.states[n + 1].journal
    ensures Accounted(h, n, e)
  {
    var s := h.states[n];
    assert h.states[n + 1] == Next(s, h.steps[n]);
    SendingStaysCurrent(h, n);
    if h.steps[n] != Quarantine(e) {
      AcknowledgedMeansRecorded(h, n, s.sending.value.request);
    }
  }

  /** What settles an entry: an acknowledgement, or a refusal that is not about the
      worker's credentials. */
  lemma SettledBy(a: Answer)
    ensures Settles(a) <==> a.Status? && (200 <= a.code < 300 || (400 <= a.code < 500 && a.code != 401))
    ensures ClassifyError(a).Auth? <==> a == Status(401)
  {
  }

  /** When the worker gets an answer its exchange is over, and the entry goes exactly
      when the answer settles it; nothing else leaves the journal. */
  lemma AnswerSettles(s: State)
    requires s.sending.Some? && s.sending.value.request in s.requests
    requires s.requests[s.sending.value.request].phase.Answered?
    ensures var a, e := s.requests[s.sending.value.request].phase.answer, s.sending.value.entry;
            && Next(s, Receive).sending.None?
            && Next(s, Receive).journal == if Settles(a) then s.journal - {e} else s.journal
  {
  }

  /** What the handler makes of a report when it reads the row: 404 for a job that is
      gone, 403 for another worker's, 204 for the outcome it has, 409 for another
      outcome, 403 for a worker that sends tokens and sent none; it goes on to write
      exactly when none of these holds. */
  lemma ReadIsAnswered(s: State, r: nat)
    requires InPhase(s, r, Arrived)
    ensures var p, jobs, workers := s.requests[r].report, s.books.store.jobs, s.books.store.workers;
            var next := Next(s, Read(r));
            var owned := p.job in jobs && jobs[p.job].worker == Some(p.worker);
            var bare := p.token.None? && p.worker in workers && workers[p.worker].sendsToken;
            && next.books == s.books && r in next.requests
            && var phase := next.requests[r].phase;
               && (phase == Answered(Status(404)) <==> p.job !in jobs)
               && (phase == Answered(Status(204)) <==> owned && jobs[p.job].status == p.outcome)
               && (phase == Answered(Status(409)) <==>
                     && owned && jobs[p.job].status != p.outcome
                     && jobs[p.job].status in {Complete, Failed, Skipped, Cancelled})
               && (phase == Checked <==>
                     owned && jobs[p.job].status in {Pending, Queued, Assigned, Transcoding} && !bare)
               && (phase == Answered(Status(403)) <==>
                     || (p.job in jobs && !owned)
                     || (owned && jobs[p.job].status in {Pending, Queued, Assigned, Transcoding} && bare))
  {
  }

  /** A report without a token from a worker that sends them is answered at the read,
      so it changes no row: from then on the request is answered. */
  lemma BareReportChangesNothing(h: History, n: nat, m: nat, r: nat)
    requires Behaviour(h) && n < |h.steps| && h.steps[n] == Read(r) && InPhase(h.states[n], r, Arrived)
    requires var p, workers := h.states[n].requests[r].report, h.states[n].books.store.workers;
             p.token.None? && p.worker in workers && workers[p.worker].sendsToken
    requires n < m < |h.states|
    ensures h.states[n + 1].books == h.states[n].books
    ensures r in h.states[m].requests && h.states[m].requests[r].phase.Answered?
  {
    assert h.states[n + 1] == Next(h.states[n], h.steps[n]);
    ReadIsAnswered(h.states[n], r);
    AnsweredStays(h, n + 1, m, r);
  }

  lemma {:induction false} AnsweredStays(h: History, n: nat, m: nat, r: nat)
    requires Behaviour(h) && n <= m < |h.states| && r in h.states[n].requests && h.states[n].requests[r].phase.Answered?
    ensures r in h.states[m].requests && h.states[m].requests[r].phase.Answered?
    decreases m
  {
    if n < m {
      AnsweredStays(h, n, m - 1, r);
      AnsweredOneOn(h.states[m - 1], h.steps[m - 1], r);
    }
  }

  lemma AnsweredOneOn(s: State, step: Step, r: nat)
    requires r in s.requests && s.requests[r].phase.Answered?
    ensures r in Next(s, step).requests && Next(s, step).requests[r].phase.Answered?
  {
  }

  /** A report of the attempt that is running goes through: uninterrupted, its
      handler records the outcome, writes both catalog statements, makes all of it
      durable and answers 204. */
  lemma ReportGoesThrough(s: State, r: nat, t: Token, now: Instant)
    requires InPhase(s, r, Arrived) && s.requests[r].report.token == Some(t)
    requires var p := s.requests[r].report; Holds(s.books.store, p.job, p.worker, t)
    ensures var p, row := s.requests[r].report, s.books.store.jobs[s.requests[r].report.job];
            var written := Next(Next(s, Read(r)), Step.Write(r, now));
            var sealed := Next(Next(Next(written, Sync(r)), Annotate(r)), Seal(r));
            && sealed.durable == sealed.books
            && sealed.books.store.jobs == s.books.store.jobs[p.job := row.(status := p.outcome, updated := now)]
            && sealed.books.effects == s.books.effects + [Effect(r, p.job, t, p.outcome)]
            && sealed.books.notes == s.books.notes + {r}
            && InPhase(sealed, r, Answered(Status(204)))
  {
    var s1 := Next(s, Read(r));
    assert InPhase(s1, r, Checked) && s1.requests[r].report == s.requests[r].report;
    var s2 := Next(s1, Step.Write(r, now));
    assert InPhase(s2, r, Finalized(t)) && s2.requests[r].report == s.requests[r].report;
    var s3 := Next(s2, Sync(r));
    assert InPhase(s3, r, Synced(t));
    var s4 := Next(s3, Annotate(r));
    assert InPhase(s4, r, Synced(t));
  }

  /** Losing a race always has an answer that lets the entry go: 204 exactly when
      the row now holds the reported outcome, 409 when it holds another, 404 when
      the job is gone, 403 when it is somebody else's to finish. */
  lemma LosingIsAnswered(h: History, n: nat, r: nat)
    requires Behaviour(h) && n < |h.steps| && h.steps[n] == Reread(r) && InPhase(h.states[n], r, Lost)
    ensures r in h.states[n + 1].requests && h.states[n + 1].requests[r].phase.Answered?
    ensures var a := h.states[n + 1].requests[r].phase.answer;
            var p, jobs := h.states[n].requests[r].report, h.states[n].books.store.jobs;
            && a.Status? && a.code in {204, 403, 404, 409} && Settles(a)
            && (a.code == 204 <==> Recorded(h.states[n], p))
            && (a.code == 404 <==> p.job !in jobs)
            && (a.code == 409 <==> p.job in jobs && jobs[p.job].status.Terminal() && jobs[p.job].status != p.outcome)
    ensures h.states[n].sending.Some? && h.states[n].sending.value.request == r ==>
              h.states[n].sending.value.entry !in Next(h.states[n + 1], Receive).journal
  {
    assert h.states[n + 1] == Next(h.states[n], h.steps[n]);
  }
}

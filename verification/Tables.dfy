/** The scheduler's job and worker tables. Every way into them is one SQL
    statement, and a statement is atomic, so the protocol is a sequence of
    statements issued by any number of concurrent requests and sweeps.
    `Apply` gives the effect of one statement; `Store` is the pair of tables
    together with the number of claim tokens handed out so far. */
module Tables {

  import opened Options

  type JobId = nat
  type WorkerId = nat
  /** A claim token. `uuid4` is modelled as a counter: each one is new. */
  type Token = nat
  type Instant = int
  type Codec = nat

  datatype JobStatus =
    Pending | Queued | Assigned | Transcoding | Complete | Failed | Skipped | Cancelled
  {
    predicate Waiting() { Pending? || Queued? }
    predicate Active() { Assigned? || Transcoding? }
    predicate Terminal() { Complete? || Failed? || Skipped? || Cancelled? }
  }

  /** What a worker can report a job to be. */
  type Outcome = s: JobStatus | s.Complete? || s.Skipped? || s.Failed? witness Complete

  datatype WorkerStatus = Online | Busy | Offline | Dead
  {
    predicate Alive() { Online? || Busy? }
  }

  /** The columns that some statement's guard reads, and `progress` for the
      payload of a report. */
  datatype Job = Job(
    status: JobStatus,
    worker: Option<WorkerId>,
    token: Option<Token>,
    progress: real,
    codec: Codec,
    downscale: bool,
    created: Instant,
    updated: Instant)

  datatype Worker = Worker(
    status: WorkerStatus,
    current: Option<JobId>,
    changed: Option<Instant>,
    lastBeat: Instant,
    sendsToken: bool)

  datatype Store = Store(jobs: map<JobId, Job>, workers: map<WorkerId, Worker>, issued: Token)

  const EMPTY_STORE := Store(map[], map[], 0)

  const STALE_WORKER_SECONDS: int := 90
  const ORPHAN_GRACE_SECONDS: int := 600
  const ABANDONED_GRACE_SECONDS: int := 120
  const WORKER_REMOVAL_SECONDS: int := 1800

  datatype Statement =
    | CreateJob(id: JobId, codec: Codec, downscale: bool, now: Instant)
    | ClaimJob(worker: WorkerId, codecs: set<Codec>, downscales: bool, pick: JobId, now: Instant)
    | ReportProgress(id: JobId, worker: WorkerId, token: Option<Token>, progress: real, now: Instant)
    | FinalizeJob(id: JobId, worker: WorkerId, token: Option<Token>, outcome: Outcome, now: Instant)
    | CancelIfWaiting(id: JobId, now: Instant)
    | CancelAllWaiting(now: Instant)
      /** The retry route with its read and its write taken together. */
    | RetryJob(id: JobId, now: Instant)
      /** The retry route's write alone: unconditional, by job id. */
    | RetryWrite(id: JobId, now: Instant)
      /** Registration is two statements: the worker row, then the release. */
    | UpsertWorker(worker: WorkerId, sendsToken: bool, now: Instant)
    | ReleaseJobs(worker: WorkerId, now: Instant)
    | Heartbeat(worker: WorkerId, status: WorkerStatus, current: Option<JobId>, now: Instant)
    | MarkStaleWorkers(now: Instant)
    | RequeueOrphans(now: Instant)
    | RequeueAbandoned(now: Instant)
    | DeleteJobs(statuses: set<JobStatus>, now: Instant)
    | DeleteWorker(worker: WorkerId, now: Instant)

  predicate Eligible(job: Job, codecs: set<Codec>, downscales: bool) {
    job.status.Waiting() && job.codec in codecs && (downscales || !job.downscale)
  }

  /** `pick` is an oldest job this worker can encode. */
  predicate NextInLine(jobs: map<JobId, Job>, codecs: set<Codec>, downscales: bool, pick: JobId) {
    && pick in jobs
    && Eligible(jobs[pick], codecs, downscales)
    && forall j | j in jobs && Eligible(jobs[j], codecs, downscales) :: jobs[pick].created <= jobs[j].created
  }

  /** `AND claim_token = ?`, present only when the report carries a token. */
  predicate Fenced(job: Job, worker: WorkerId, token: Option<Token>) {
    job.worker == Some(worker) && (token.Some? ==> job.token == token)
  }

  function Released(job: Job, now: Instant): Job {
    job.(status := Queued, worker := None, token := None, progress := 0.0, updated := now)
  }

  function Retried(job: Job, now: Instant): Job {
    job.(status := Pending, worker := None, token := None, progress := 0.0, updated := now)
  }

  /** The owner is dead, offline or unknown, and nothing moved for the grace. */
  predicate Orphaned(s: Store, job: Job, now: Instant) {
    && job.status.Active()
    && (job.worker.Some? && job.worker.value in s.workers ==> !s.workers[job.worker.value].status.Alive())
    && job.updated < now - ORPHAN_GRACE_SECONDS
  }

  /** The owner is alive and has been naming another job, or none, for the grace. */
  predicate Abandoned(s: Store, id: JobId, job: Job, now: Instant) {
    && job.status.Active()
    && job.worker.Some? && job.worker.value in s.workers
    && var w := s.workers[job.worker.value];
    && w.status.Alive()
    && w.current != Some(id)
    && w.changed.Some? && w.changed.value < now - ABANDONED_GRACE_SECONDS
    && job.updated < now - ABANDONED_GRACE_SECONDS
  }

  predicate OwnsActive(jobs: map<JobId, Job>, worker: WorkerId) {
    exists j :: j in jobs && jobs[j].status.Active() && jobs[j].worker == Some(worker)
  }

  /** An `UPDATE jobs SET ... WHERE id = ?` whose row passed the guard. */
  function Put(s: Store, id: JobId, job: Job): Store {
    s.(jobs := s.jobs[id := job])
  }

  function Beat(w: Worker, status: WorkerStatus, current: Option<JobId>, now: Instant): Worker {
    Worker(status, current, if w.current == current then w.changed else Some(now), now, w.sendsToken)
  }

  function Apply(s: Store, st: Statement): Store {
    match st
    case CreateJob(id, codec, downscale, now) =>
      if id in s.jobs then s
      else Put(s, id, Job(Pending, None, None, 0.0, codec, downscale, now, now))
    case ClaimJob(w, codecs, downscales, pick, now) =>
      if NextInLine(s.jobs, codecs, downscales, pick) then
        var job := s.jobs[pick].(status := Transcoding, worker := Some(w), token := Some(s.issued), updated := now);
        Put(s, pick, job).(issued := s.issued + 1)
      else s
    case ReportProgress(id, w, token, progress, now) =>
      if id in s.jobs && Fenced(s.jobs[id], w, token) && s.jobs[id].status.Active() then
        Put(s, id, s.jobs[id].(progress := progress, updated := now))
      else s
    case FinalizeJob(id, w, token, outcome, now) =>
      if id in s.jobs && Fenced(s.jobs[id], w, token) && !s.jobs[id].status.Terminal() then
        Put(s, id, s.jobs[id].(status := outcome, updated := now))
      else s
    case CancelIfWaiting(id, now) =>
      if id in s.jobs && s.jobs[id].status.Waiting() then
        Put(s, id, s.jobs[id].(status := Cancelled, updated := now))
      else s
    case CancelAllWaiting(now) =>
      s.(jobs := map j | j in s.jobs ::
           if s.jobs[j].status.Waiting() then s.jobs[j].(status := Cancelled, updated := now) else s.jobs[j])
    case RetryJob(id, now) =>
      if id in s.jobs && (s.jobs[id].status.Failed? || s.jobs[id].status.Cancelled?) then
        Put(s, id, Retried(s.jobs[id], now))
      else s
    case RetryWrite(id, now) =>
      if id in s.jobs then Put(s, id, Retried(s.jobs[id], now)) else s
    case UpsertWorker(w, sends, now) =>
      var changed := if w in s.workers then s.workers[w].changed else None;
      s.(workers := s.workers[w := Worker(Online, None, changed, now, sends)])
    case ReleaseJobs(w, now) =>
      s.(jobs := map j | j in s.jobs ::
           if s.jobs[j].worker == Some(w) && s.jobs[j].status.Active() then Released(s.jobs[j], now) else s.jobs[j])
    case Heartbeat(w, status, current, now) =>
      if w in s.workers then s.(workers := s.workers[w := Beat(s.workers[w], status, current, now)]) else s
    case MarkStaleWorkers(now) =>
      s.(workers := map w | w in s.workers ::
           if s.workers[w].status.Alive() && s.workers[w].lastBeat < now - STALE_WORKER_SECONDS
           then s.workers[w].(status := Dead) else s.workers[w])
    case RequeueOrphans(now) =>
      s.(jobs := map j | j in s.jobs ::
           if Orphaned(s, s.jobs[j], now) then Released(s.jobs[j], now) else s.jobs[j])
    case RequeueAbandoned(now) =>
      s.(jobs := map j | j in s.jobs ::
           if Abandoned(s, j, s.jobs[j], now) then Released(s.jobs[j], now) else s.jobs[j])
    case DeleteJobs(statuses, now) =>
      s.(jobs := map j | j in s.jobs && s.jobs[j].status !in statuses :: s.jobs[j])
    case DeleteWorker(w, now) =>
      if w in s.workers && now - s.workers[w].lastBeat >= WORKER_REMOVAL_SECONDS && !OwnsActive(s.jobs, w) then
        s.(workers := s.workers - {w})
      else s
  }

  /** A run: the states a sequence of statements leads through. */
  datatype Trace = Trace(states: seq<Store>, steps: seq<Statement>)

  ghost predicate Run(tr: Trace) {
    && |tr.states| == |tr.steps| + 1
    && tr.states[0] == EMPTY_STORE
    && forall i | 0 <= i < |tr.steps| :: tr.states[i + 1] == Apply(tr.states[i], tr.steps[i])
  }

  /** A run made one statement longer. */
  ghost function Then(tr: Trace, st: Statement, s: Store): (longer: Trace)
    requires Run(tr) && s == Apply(tr.states[|tr.steps|], st)
    ensures Run(longer) && |longer.steps| == |tr.steps| + 1
  {
    Trace(tr.states + [s], tr.steps + [st])
  }
}

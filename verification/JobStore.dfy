/** The job repository as the object it is: tables updated in place, one
    method per repository function, each tied to the statement it issues. */
module JobStore {
  import opened Options
  import opened Tables
  import opened Attempts

  const HEVC: Codec := 0

  datatype MediaStatus = NeedsTranscode | InQueue | InProgress | Done | LeftOut
  {
    predicate InFlight() { InQueue? || InProgress? }
  }

  /** A catalog row: the job it was queued into, and where it stands. */
  datatype Media = Media(job: Option<JobId>, status: MediaStatus, skipReason: Option<nat>, updated: Instant)

  predicate PointsInto(m: Media, ids: set<JobId>) {
    m.job.Some? && m.job.value in ids
  }

  /** The catalog after the jobs `ids` are gone: their rows lose the job, a row
      in flight drops back, a settled outcome is kept. */
  function Detached(media: map<nat, Media>, ids: set<JobId>, now: Instant): map<nat, Media> {
    map m | m in media ::
      if !PointsInto(media[m], ids) then media[m]
      else if media[m].status.InFlight() then Media(None, NeedsTranscode, None, now)
      else media[m].(job := None, updated := now)
  }

  function Pointing(media: map<nat, Media>, ids: set<JobId>): set<nat> {
    set m | m in media && PointsInto(media[m], ids)
  }

  function Without(jobs: map<JobId, Job>, ids: set<JobId>): map<JobId, Job> {
    map j | j in jobs && j !in ids :: jobs[j]
  }

  function Chosen(jobs: map<JobId, Job>, statuses: Option<set<JobStatus>>): set<JobId> {
    set j | j in jobs && (statuses.Some? ==> jobs[j].status in statuses.value)
  }

  function Elements(ids: seq<JobId>): set<JobId> {
    set i | i in ids
  }

  /** Exactly the jobs `which` are back in the queue: without owner, token and
      progress. */
  ghost predicate QueuedAgain(before: map<JobId, Job>, after: map<JobId, Job>, which: set<JobId>, now: Instant) {
    && after.Keys == before.Keys && which <= before.Keys
    && forall j | j in before ::
         after[j] == if j in which
                     then before[j].(status := Queued, worker := None, token := None, progress := 0.0, updated := now)
                     else before[j]
  }

  function Marked(before: map<WorkerId, Worker>, after: map<WorkerId, Worker>): set<WorkerId> {
    set w | w in before && w in after && after[w] != before[w]
  }

  /** If anything is eligible, something is next in line. */
  lemma {:induction false} SomeoneIsNext(jobs: map<JobId, Job>, candidates: set<JobId>, codecs: set<Codec>, d: bool)
    returns (pick: JobId)
    requires candidates != {} && forall j | j in candidates :: j in jobs && Eligible(jobs[j], codecs, d)
    ensures pick in candidates && forall j | j in candidates :: jobs[pick].created <= jobs[j].created
    decreases |candidates|
  {
    var c :| c in candidates;
    if candidates == {c} {
      pick := c;
    } else {
      var rest := SomeoneIsNext(jobs, candidates - {c}, codecs, d);
      pick := if jobs[c].created <= jobs[rest].created then c else rest;
    }
  }

  lemma ChunkDetaches(media: map<nat, Media>, done: set<JobId>, chunk: set<JobId>, now: Instant)
    requires done !! chunk
    ensures Detached(Detached(media, done, now), chunk, now) == Detached(media, done + chunk, now)
    ensures Pointing(Detached(media, done, now), chunk) == Pointing(media, chunk)
    ensures |Pointing(media, done + chunk)| == |Pointing(media, done)| + |Pointing(media, chunk)|
  {
    assert Pointing(media, done + chunk) == Pointing(media, done) + Pointing(media, chunk);
  }

  lemma NothingDeleted(jobs: map<JobId, Job>, media: map<nat, Media>, now: Instant)
    ensures Without(jobs, {}) == jobs && Detached(media, {}, now) == media && Pointing(media, {}) == {}
  {
  }

  lemma ChunkRemoves(jobs: map<JobId, Job>, done: set<JobId>, chunk: set<JobId>)
    requires done !! chunk && chunk <= jobs.Keys
    ensures Without(Without(jobs, done), chunk) == Without(jobs, done + chunk)
    ensures chunk * Without(jobs, done).Keys == chunk
    ensures |done + chunk| == |done| + |chunk|
  {
  }

  lemma SplitChunk(ids: seq<JobId>, i: nat, next: nat)
    requires i <= next <= |ids| && forall a, b | 0 <= a < b < |ids| :: ids[a] != ids[b]
    ensures Elements(ids[..next]) == Elements(ids[..i]) + Elements(ids[i..next])
    ensures Elements(ids[..i]) !! Elements(ids[i..next])
    ensures Elements(ids[i..next]) <= Elements(ids)
  {
    assert ids[..next] == ids[..i] + ids[i..next];
  }

  class JobStore {
    var jobs: map<JobId, Job>
    var workers: map<WorkerId, Worker>
    var issued: Token
    var media: map<nat, Media>

    ghost function Contents(): Store
      reads this
    {
      Store(jobs, workers, issued)
    }

    constructor ()
      ensures Contents() == EMPTY_STORE && media == map[]
    {
      jobs, workers, issued, media := map[], map[], 0, map[];
    }

    /** Claims an oldest job the worker can encode, and says there is none only
        when there is none. */
    method ClaimNextJob(worker: WorkerId, supported: set<Codec>, downscales: bool, now: Instant)
      returns (claimed: Option<JobId>)
      modifies this`jobs, this`issued
      ensures var codecs := if supported == {} then {HEVC} else supported;
              claimed.None? <==> forall j | j in old(jobs) :: !Eligible(old(jobs)[j], codecs, downscales)
      ensures claimed.None? ==> Contents() == old(Contents())
      ensures var codecs := if supported == {} then {HEVC} else supported;
              claimed.Some? ==>
                && ClaimWon(old(Contents()), ClaimJob(worker, codecs, downscales, claimed.value, now),
                            claimed.value, worker, old(issued))
                && Contents() == Apply(old(Contents()), ClaimJob(worker, codecs, downscales, claimed.value, now))
                && Holds(Contents(), claimed.value, worker, old(issued))
      // what it takes, said of the rows
      ensures claimed.None? ==>
                forall j | j in old(jobs) && (old(jobs)[j].status.Pending? || old(jobs)[j].status.Queued?) ::
                  || old(jobs)[j].codec !in (if supported == {} then {HEVC} else supported)
                  || (old(jobs)[j].downscale && !downscales)
      ensures claimed.Some? ==>
                var was := old(jobs)[claimed.value];
                && (was.status.Pending? || was.status.Queued?) && (was.downscale ==> downscales)
                && was.codec in (if supported == {} then {HEVC} else supported)
                && forall j | j in old(jobs) && (old(jobs)[j].status.Pending? || old(jobs)[j].status.Queued?)
                              && old(jobs)[j].codec in (if supported == {} then {HEVC} else supported)
                              && (old(jobs)[j].downscale ==> downscales) ::
                     was.created <= old(jobs)[j].created
      ensures claimed.Some? ==>
                jobs == old(jobs)[claimed.value := old(jobs)[claimed.value].(
                                    status := Transcoding, worker := Some(worker), token := Some(old(issued)),
                                    updated := now)]
    {
      var codecs := if supported == {} then {HEVC} else supported;
      if pick :| pick in jobs && NextInLine(jobs, codecs, downscales, pick) {
        var job := jobs[pick].(status := Transcoding, worker := Some(worker), token := Some(issued), updated := now);
        jobs, issued := jobs[pick := job], issued + 1;
        claimed := Some(pick);
      } else {
        claimed := None;
        ghost var candidates := set j | j in jobs && Eligible(jobs[j], codecs, downscales);
        if candidates != {} {
          ghost var next := SomeoneIsNext(jobs, candidates, codecs, downscales);
          assert NextInLine(jobs, codecs, downscales, next);
        }
        assert forall j | j in jobs && Eligible(jobs[j], codecs, downscales) :: j in candidates;
      }
    }

    method FinalizeJob(id: JobId, worker: WorkerId, token: Option<Token>, outcome: Outcome, now: Instant)
      returns (won: bool)
      modifies this`jobs
      ensures Contents() == Apply(old(Contents()), Statement.FinalizeJob(id, worker, token, outcome, now))
      ensures won <==> Reaches(old(Contents()), Statement.FinalizeJob(id, worker, token, outcome, now))
      ensures won <==> && id in old(jobs) && old(jobs)[id].worker == Some(worker)
                       && (token.Some? ==> old(jobs)[id].token == token)
                       && !(old(jobs)[id].status in {Complete, Failed, Skipped, Cancelled})
      ensures jobs == if won then old(jobs)[id := old(jobs)[id].(status := outcome, updated := now)] else old(jobs)
    {
      won := id in jobs && Fenced(jobs[id], worker, token) && !jobs[id].status.Terminal();
      if won {
        jobs := jobs[id := jobs[id].(status := outcome, updated := now)];
      }
    }

    method ReportProgress(id: JobId, worker: WorkerId, token: Option<Token>, progress: real, now: Instant)
      returns (won: bool)
      modifies this`jobs
      ensures Contents() == Apply(old(Contents()), Statement.ReportProgress(id, worker, token, progress, now))
      ensures won <==> Reaches(old(Contents()), Statement.ReportProgress(id, worker, token, progress, now))
      ensures won <==> && id in old(jobs) && old(jobs)[id].worker == Some(worker)
                       && (token.Some? ==> old(jobs)[id].token == token)
                       && old(jobs)[id].status in {Assigned, Transcoding}
      ensures jobs == if won then old(jobs)[id := old(jobs)[id].(progress := progress, updated := now)] else old(jobs)
    {
      won := id in jobs && Fenced(jobs[id], worker, token) && jobs[id].status.Active();
      if won {
        jobs := jobs[id := jobs[id].(progress := progress, updated := now)];
      }
    }

    method CancelIfWaiting(id: JobId, now: Instant) returns (cancelled: bool)
      modifies this`jobs
      ensures Contents() == Apply(old(Contents()), Statement.CancelIfWaiting(id, now))
      ensures cancelled <==> id in old(jobs) && old(jobs)[id].status in {Pending, Queued}
      ensures jobs == if cancelled then old(jobs)[id := old(jobs)[id].(status := Cancelled, updated := now)]
                      else old(jobs)
    {
      cancelled := id in jobs && jobs[id].status.Waiting();
      if cancelled {
        jobs := jobs[id := jobs[id].(status := Cancelled, updated := now)];
      }
    }

    /** Returns exactly the jobs it put back in the queue. */
    method RequeueOrphanActiveJobs(now: Instant) returns (requeued: set<JobId>)
      modifies this`jobs
      ensures Contents() == Apply(old(Contents()), RequeueOrphans(now))
      ensures requeued == set j | j in old(jobs) && jobs[j] != old(jobs)[j]
      // an active job of a dead, offline or unknown worker, untouched for 600 seconds
      ensures forall j | j in old(jobs) ::
                j in requeued <==>
                  && old(jobs)[j].status in {Assigned, Transcoding} && old(jobs)[j].updated < now - 600
                  && (old(jobs)[j].worker.None? || old(jobs)[j].worker.value !in workers ||
                      workers[old(jobs)[j].worker.value].status in {Offline, Dead})
      ensures QueuedAgain(old(jobs), jobs, requeued, now)
    {
      requeued := set j | j in jobs && Orphaned(Store(jobs, workers, issued), jobs[j], now);
      jobs := map j | j in jobs :: if j in requeued then Released(jobs[j], now) else jobs[j];
    }

    method RequeueAbandonedActiveJobs(now: Instant) returns (requeued: set<JobId>)
      modifies this`jobs
      ensures Contents() == Apply(old(Contents()), RequeueAbandoned(now))
      ensures requeued == set j | j in old(jobs) && jobs[j] != old(jobs)[j]
      // an active job, untouched for 120 seconds, of a live worker that has been
      // naming something else for as long
      ensures forall j | j in old(jobs) ::
                j in requeued <==>
                  && old(jobs)[j].status in {Assigned, Transcoding} && old(jobs)[j].updated < now - 120
                  && old(jobs)[j].worker.Some? && old(jobs)[j].worker.value in workers
                  && var w := workers[old(jobs)[j].worker.value];
                     && w.status in {Online, Busy} && w.current != Some(j)
                     && w.changed.Some? && w.changed.value < now - 120
      ensures QueuedAgain(old(jobs), jobs, requeued, now)
    {
      requeued := set j | j in jobs && Abandoned(Store(jobs, workers, issued), j, jobs[j], now);
      jobs := map j | j in jobs :: if j in requeued then Released(jobs[j], now) else jobs[j];
    }

    method CleanupStaleWorkers(now: Instant) returns (dead: nat)
      modifies this`workers
      ensures Contents() == Apply(old(Contents()), MarkStaleWorkers(now))
      ensures dead == |Marked(old(workers), workers)|
      // an alive worker that has been silent for more than 90 seconds is dead
      ensures workers.Keys == old(workers).Keys
      ensures forall w | w in old(workers) ::
                workers[w] == if old(workers)[w].status in {Online, Busy} && old(workers)[w].lastBeat < now - 90
                              then old(workers)[w].(status := Dead) else old(workers)[w]
    {
      var stale := set w | w in workers && workers[w].status.Alive() &&
          workers[w].lastBeat < now - STALE_WORKER_SECONDS;
      ghost var before := workers;
      workers := map w | w in workers :: if w in stale then workers[w].(status := Dead) else workers[w];
      assert stale == Marked(before, workers);
      dead := |stale|;
    }

    method UpdateWorkerHeartbeat(worker: WorkerId, status: WorkerStatus, current: Option<JobId>, now: Instant)
      modifies this`workers
      ensures Contents() == Apply(old(Contents()), Heartbeat(worker, status, current, now))
      ensures worker in old(workers) ==>
                && worker in workers && workers[worker].current == current && workers[worker].lastBeat == now
                && (old(workers)[worker].current == current ==> workers[worker].changed == old(workers)[worker].changed)
                && (old(workers)[worker].current != current ==> workers[worker].changed == Some(now))
    {
      if worker in workers {
        var row := workers[worker];
        var changed := if row.current == current then row.changed else Some(now);
        workers := workers[worker := row.(lastBeat := now, status := status, changed := changed, current := current)];
      }
    }

    /** Registration, its two statements run back to back. */
    method Register(worker: WorkerId, sendsToken: bool, now: Instant)
      modifies this`workers, this`jobs
      ensures Contents() ==
              Apply(Apply(old(Contents()), UpsertWorker(worker, sendsToken, now)), ReleaseJobs(worker, now))
      ensures !OwnsActive(jobs, worker)
      ensures QueuedAgain(old(jobs), jobs, (set j | j in old(jobs) && old(jobs)[j].worker == Some(worker)
                                                    && old(jobs)[j].status in {Assigned, Transcoding}), now)
      ensures worker in workers && workers[worker].status.Online? && workers[worker].current.None?
      ensures workers[worker].lastBeat == now && workers[worker].sendsToken == sendsToken
    {
      var changed := if worker in workers then workers[worker].changed else None;
      workers := workers[worker := Worker(Online, None, changed, now, sendsToken)];
      jobs := map j | j in jobs ::
        if jobs[j].worker == Some(worker) && jobs[j].status.Active() then Released(jobs[j], now) else jobs[j];
    }

    /** The retry route, its read and its write taken together. */
    method RetryJob(id: JobId, now: Instant) returns (retried: bool)
      modifies this`jobs
      ensures Contents() == Apply(old(Contents()), Statement.RetryJob(id, now))
      ensures retried <==> id in old(jobs) && old(jobs)[id].status in {Failed, Cancelled}
      ensures jobs == if retried then old(jobs)[id := old(jobs)[id].(status := Pending, worker := None, token := None,
                                                                    progress := 0.0, updated := now)] else old(jobs)
    {
      retried := id in jobs && (jobs[id].status.Failed? || jobs[id].status.Cancelled?);
      if retried {
        jobs := jobs[id := jobs[id].(status := Pending, worker := None, token := None, progress := 0.0,
                                     updated := now)];
      }
    }

    /** Every waiting job, and no other; the catalog rows first, while the jobs
        still match. */
    method CancelAllPending(now: Instant) returns (cancelled: nat)
      modifies this`jobs, this`media
      ensures Contents() == Apply(old(Contents()), CancelAllWaiting(now))
      ensures cancelled == |set j | j in old(jobs) && old(jobs)[j].status in {Pending, Queued}|
      ensures jobs.Keys == old(jobs).Keys && media.Keys == old(media).Keys
      ensures forall j | j in old(jobs) ::
                jobs[j] == if old(jobs)[j].status in {Pending, Queued}
                           then old(jobs)[j].(status := Cancelled, updated := now) else old(jobs)[j]
      ensures forall m | m in old(media) ::
                if old(media)[m].job.Some? && old(media)[m].job.value in old(jobs)
                   && old(jobs)[old(media)[m].job.value].status in {Pending, Queued}
                then media[m] == Media(old(media)[m].job, NeedsTranscode, None, now)
                else media[m] == old(media)[m]
    {
      var waiting := set j | j in jobs && jobs[j].status.Waiting();
      assert waiting == set j | j in jobs && jobs[j].status in {Pending, Queued};
      media := map m | m in media ::
        if media[m].job.Some? && media[m].job.value in waiting then Media(media[m].job, NeedsTranscode, None, now)
        else media[m];
      jobs := map j | j in jobs :: if j in waiting then jobs[j].(status := Cancelled, updated := now) else jobs[j];
      cancelled := |waiting|;
    }

    /** A worker row goes only after half an hour of silence, and not while an
        active job points at it. */
    method DeleteWorker(worker: WorkerId, now: Instant) returns (deleted: bool)
      modifies this`workers
      ensures Contents() == Apply(old(Contents()), Statement.DeleteWorker(worker, now))
      ensures deleted <==> && worker in old(workers) && now - old(workers)[worker].lastBeat >= 1800
                           && forall j | j in jobs && jobs[j].worker == Some(worker) ::
                                jobs[j].status !in {Assigned, Transcoding}
      ensures workers == if deleted then old(workers) - {worker} else old(workers)
    {
      deleted := && worker in workers && now - workers[worker].lastBeat >= WORKER_REMOVAL_SECONDS
                 && !OwnsActive(jobs, worker);
      if deleted {
        workers := workers - {worker};
      }
    }

    /** One pass of the loop below: the catalog rows, then the jobs. */
    method DeleteChunk(chunk: set<JobId>, now: Instant) returns (deleted: nat, detached: nat)
      modifies this`jobs, this`media
      ensures media == Detached(old(media), chunk, now) && jobs == Without(old(jobs), chunk)
      ensures detached == |Pointing(old(media), chunk)| && deleted == |chunk * old(jobs).Keys|
    {
      detached := |Pointing(media, chunk)|;
      media := Detached(media, chunk, now);
      deleted := |chunk * jobs.Keys|;
      jobs := Without(jobs, chunk);
    }

    /** The chunk loop over the ids chosen up front. */
    method DeleteInChunks(ids: seq<JobId>, chunkSize: nat, now: Instant) returns (removed: nat, released: nat)
      requires chunkSize > 0 && Elements(ids) <= jobs.Keys
      requires forall a, b | 0 <= a < b < |ids| :: ids[a] != ids[b]
      modifies this`jobs, this`media
      ensures jobs == Without(old(jobs), Elements(ids)) && media == Detached(old(media), Elements(ids), now)
      ensures removed == |Elements(ids)| && released == |Pointing(old(media), Elements(ids))|
    {
      removed, released := 0, 0;
      var i := 0;
      NothingDeleted(jobs, media, now);
      assert Elements(ids[..0]) == {};
      while i < |ids|
        invariant 0 <= i <= |ids|
        invariant jobs == Without(old(jobs), Elements(ids[..i]))
        invariant media == Detached(old(media), Elements(ids[..i]), now)
        invariant removed == |Elements(ids[..i])|
        invariant released == |Pointing(old(media), Elements(ids[..i]))|
      {
        var next := if i + chunkSize <= |ids| then i + chunkSize else |ids|;
        ghost var done, chunk := Elements(ids[..i]), Elements(ids[i..next]);
        SplitChunk(ids, i, next);
        ChunkDetaches(old(media), done, chunk, now);
        ChunkRemoves(old(jobs), done, chunk);
        var deleted, detached := DeleteChunk(Elements(ids[i..next]), now);
        removed, released := removed + deleted, released + detached;
        i := next;
      }
      assert ids[..|ids|] == ids;
    }

    /** Deletes in chunks of at most `chunkSize` ids, and whatever the chunk
        size the result is that of one statement per table over the set chosen
        up front. */
    method DeleteJobs(statuses: Option<set<JobStatus>>, chunkSize: nat, now: Instant)
      returns (removed: nat, released: nat)
      requires chunkSize > 0
      modifies this`jobs, this`media
      ensures var chosen := Chosen(old(jobs), statuses);
              && jobs == Without(old(jobs), chosen)
              && media == Detached(old(media), chosen, now)
              && removed == |chosen|
              && released == |Pointing(old(media), chosen)|
      // row by row: only rows of deleted jobs change; they lose the job, and what was
      // on its way goes back to the start, while a settled outcome is kept
      ensures forall j :: j in jobs <==> j in old(jobs) && statuses.Some? && old(jobs)[j].status !in statuses.value
      ensures media.Keys == old(media).Keys
      ensures forall m | m in old(media) && old(media)[m].job.Some? && old(media)[m].job.value in old(jobs)
                         && old(media)[m].job.value !in jobs ::
                && media[m].job.None? && media[m].updated == now
                && (old(media)[m].status in {InQueue, InProgress} ==>
                      media[m].status.NeedsTranscode? && media[m].skipReason.None?)
                && (old(media)[m].status !in {InQueue, InProgress} ==>
                      media[m].status == old(media)[m].status && media[m].skipReason == old(media)[m].skipReason)
      ensures forall m | m in old(media) && !(old(media)[m].job.Some? && old(media)[m].job.value in old(jobs)
                                              && old(media)[m].job.value !in jobs) ::
                media[m] == old(media)[m]
      ensures statuses.Some? ==> Contents() == Apply(old(Contents()), Statement.DeleteJobs(statuses.value, now))
    {
      var chosen := Chosen(jobs, statuses);
      if statuses == Some({}) {
        NothingDeleted(jobs, media, now);
        assert chosen == {};
        return 0, 0;
      }
      var ids := ToSequence(chosen);
      removed, released := DeleteInChunks(ids, chunkSize, now);
    }
  }

  /** The rows of a `SELECT id`, in some order, each once. */
  method ToSequence(chosen: set<JobId>) returns (ids: seq<JobId>)
    ensures Elements(ids) == chosen
    ensures forall a, b | 0 <= a < b < |ids| :: ids[a] != ids[b]
  {
    ids := [];
    var rest := chosen;
    while rest != {}
      invariant rest <= chosen && Elements(ids) == chosen - rest
      invariant forall a, b | 0 <= a < b < |ids| :: ids[a] != ids[b]
    {
      var id :| id in rest;
      assert id !in Elements(ids) && Elements(ids + [id]) == Elements(ids) + {id};
      ids, rest := ids + [id], rest - {id};
    }
  }
}

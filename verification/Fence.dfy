/** The partition fence: the worker's heartbeat loop aborts its own job before
    the scheduler's orphan sweep can hand it to somebody else. */
module Fence {
  import opened Multiples
  import Tables

  const FENCE_MARGIN: real := 120.0
  const REQUEST_TIMEOUT: real := 30.0

  function FenceAfter(grace: real): real {
    if grace - FENCE_MARGIN > 0.0 then grace - FENCE_MARGIN else 0.0
  }

  datatype Outcome = Answered | Failed | Unreadable

  /** One turn of the loop: what became of the heartbeat, how long it took, and
      whether a job is in flight when it is over. */
  datatype Beat = Beat(outcome: Outcome, took: real, busy: bool)

  /** `now` is the time at the end of the turn, before the pause. */
  datatype Loop = Loop(now: real, lastContact: real, fenced: bool, aborts: seq<real>)

  function Turn(l: Loop, beat: Beat, fenceAfter: real): Loop {
    var now := l.now + beat.took;
    match beat.outcome
    case Unreadable => l.(now := now)
    case Answered => l.(now := now, lastContact := now, fenced := false)
    case Failed =>
      if !l.fenced && now - l.lastContact >= fenceAfter && beat.busy
      then l.(now := now, fenced := true, aborts := l.aborts + [now])
      else l.(now := now)
  }

  /** After `n` turns, with the pause before each turn but the first. */
  function After(start: real, interval: real, fenceAfter: real, beats: seq<Beat>, n: nat): Loop
    requires n <= |beats|
  {
    if n == 0 then Loop(start, start, false, [])
    else
      var l := After(start, interval, fenceAfter, beats, n - 1);
      Turn(l.(now := if n > 1 then l.now + interval else l.now), beats[n - 1], fenceAfter)
  }

  /** The loop as the agent runs it. */
  method HeartbeatLoop(start: real, interval: real, fenceAfter: real, beats: seq<Beat>)
      returns (aborts: seq<real>, lastContact: real)
    ensures var l := After(start, interval, fenceAfter, beats, |beats|);
            aborts == l.aborts && lastContact == l.lastContact
  {
    var now, fenced := start, false;
    lastContact, aborts := start, [];
    for i := 0 to |beats|
      invariant var l := After(start, interval, fenceAfter, beats, i);
                && lastContact == l.lastContact && aborts == l.aborts && fenced == l.fenced
                && now == if i == 0 then l.now else l.now + interval
    {
      now := now + beats[i].took;
      match beats[i].outcome {
        case Unreadable =>
        case Answered =>
          lastContact, fenced := now, false;
        case Failed =>
          if !fenced && now - lastContact >= fenceAfter && beats[i].busy {
            fenced, aborts := true, aborts + [now];
          }
      }
      now := now + interval;
    }
  }

  /** From the acknowledged turn `p` on, every turn up to `n` is a heartbeat that
      fails within the timeout, with the job in flight. */
  ghost predicate Partitioned(beats: seq<Beat>, p: nat, n: nat) {
    && p < n <= |beats| && beats[p].outcome.Answered?
    && forall i | p < i < n :: beats[i].outcome.Failed? && beats[i].busy && 0.0 <= beats[i].took <= REQUEST_TIMEOUT
  }

  /** Where a partitioned loop stands after `n` turns. */
  ghost predicate Standing(l: Loop, contact: real, before: seq<real>, interval: real, fenceAfter: real) {
    && l.lastContact == contact && contact <= l.now
    && if l.fenced then
         exists a :: l.aborts == before + [a] &&
             contact + fenceAfter <= a <= contact + fenceAfter + interval + REQUEST_TIMEOUT
       else l.aborts == before && (l.now == contact || l.now - contact < fenceAfter)
  }

  lemma {:induction false} PartitionStands(start: real, interval: real, fenceAfter: real, beats: seq<Beat>, p: nat,
      n: nat)
    requires Partitioned(beats, p, n) && interval >= 0.0 && fenceAfter >= 0.0
    ensures var at := After(start, interval, fenceAfter, beats, p + 1);
            Standing(After(start, interval, fenceAfter, beats, n), at.now, at.aborts, interval, fenceAfter)
    decreases n
  {
    var at := After(start, interval, fenceAfter, beats, p + 1);
    if n > p + 1 {
      PartitionStands(start, interval, fenceAfter, beats, p, n - 1);
      var l := After(start, interval, fenceAfter, beats, n - 1);
      var next := After(start, interval, fenceAfter, beats, n);
      assert next == Turn(l.(now := l.now + interval), beats[n - 1], fenceAfter);
      if !l.fenced && next.fenced {
        assert next.aborts == at.aborts + [next.now];
      }
    }
  }

  /** A worker cut off after the contact at turn `p` asks for the abort of its job
      once, no earlier than the fence and no later than one interval and one
      timeout after it. */
  lemma AbortsInTime(start: real, interval: real, fenceAfter: real, beats: seq<Beat>, p: nat, n: nat)
      returns (abort: real)
    requires Partitioned(beats, p, n) && interval >= 0.0 && fenceAfter >= 0.0
    requires var contact := After(start, interval, fenceAfter, beats, p + 1).now;
             After(start, interval, fenceAfter, beats, n).now >= contact + fenceAfter && n > p + 1
    ensures var at := After(start, interval, fenceAfter, beats, p + 1);
            && After(start, interval, fenceAfter, beats, n).aborts == at.aborts + [abort]
            && at.now + fenceAfter <= abort <= at.now + fenceAfter + interval + REQUEST_TIMEOUT
  {
    PartitionStands(start, interval, fenceAfter, beats, p, n);
    var at, l := After(start, interval, fenceAfter, beats, p + 1), After(start, interval, fenceAfter, beats, n);
    abort :| l.aborts == at.aborts + [abort] &&
        at.now + fenceAfter <= abort <= at.now + fenceAfter + interval + REQUEST_TIMEOUT;
  }

  // ---- Against the orphan sweep ----

  /** The sweep's condition on a job row, for any grace. */
  predicate MayRequeue(updated: real, grace: real, now: real) {
    updated < now - grace
  }

  lemma OrphanSweepWaits(s: Tables.Store, job: Tables.Job, now: Tables.Instant)
    requires Tables.Orphaned(s, job, now)
    ensures MayRequeue(job.updated as real, Tables.ORPHAN_GRACE_SECONDS as real, now as real)
  {
    assert job.updated + 600 < now;
    assert (job.updated + 600) as real < now as real;
  }

  /** If the job row was bumped no more than 120 - I - 30 seconds before the last
      contact, the abort comes before any instant at which the sweep may requeue;
      if it was bumped more than 120 seconds before, there is such an instant
      ahead of every abort. */
  lemma FenceAgainstTheSweep(start: real, interval: real, grace: real, beats: seq<Beat>, p: nat, n: nat,
                             updated: real)
      returns (abort: real)
    requires grace >= FENCE_MARGIN && interval >= 0.0 && Partitioned(beats, p, n) && n > p + 1
    requires var contact := After(start, interval, FenceAfter(grace), beats, p + 1).now;
             After(start, interval, FenceAfter(grace), beats, n).now >= contact + FenceAfter(grace)
    ensures var at := After(start, interval, FenceAfter(grace), beats, p + 1);
            && After(start, interval, FenceAfter(grace), beats, n).aborts == at.aborts + [abort]
            && (updated >= at.now - (FENCE_MARGIN - interval - REQUEST_TIMEOUT) ==>
                  forall t | MayRequeue(updated, grace, t) :: abort < t)
            && (updated < at.now - FENCE_MARGIN ==> exists t :: MayRequeue(updated, grace, t) && t < abort)
  {
    abort := AbortsInTime(start, interval, FenceAfter(grace), beats, p, n);
    var contact := After(start, interval, FenceAfter(grace), beats, p + 1).now;
    if updated < contact - FENCE_MARGIN {
      var t := (updated + grace + contact + FenceAfter(grace)) / 2.0;
      assert MayRequeue(updated, grace, t) && t < abort;
    }
  }

  // ---- The bound is exact ----

  /** An acknowledged turn, `k` failures of `took` seconds each, and one that takes
      the whole timeout. */
  function Worst(k: nat, took: real): seq<Beat> {
    [Beat(Answered, 0.0, true)] + seq(k, _ => Beat(Failed, took, true)) + [Beat(Failed, REQUEST_TIMEOUT, true)]
  }

  lemma {:induction false} TimesGrow(m: nat, n: nat, x: real)
    requires m <= n && x >= 0.0
    ensures Times(m, x) <= Times(n, x)
    decreases n
  {
    if m < n { TimesGrow(m, n - 1, x); }
  }

  /** Short of the fence, `i` failures only pass the time. */
  lemma {:induction false} BeforeTheFence(start: real, interval: real, fenceAfter: real, k: nat, took: real, i: nat)
    requires i <= k && interval >= 0.0 && took >= 0.0 && Times(k, interval + took) < fenceAfter
    ensures After(start, interval, fenceAfter, Worst(k, took), i + 1) ==
            Loop(start + Times(i, interval + took), start, false, [])
  {
    if i == 0 {
      assert After(start, interval, fenceAfter, Worst(k, took), 0) == Loop(start, start, false, []);
      assert Worst(k, took)[0] == Beat(Answered, 0.0, true);
    } else {
      BeforeTheFence(start, interval, fenceAfter, k, took, i - 1);
      TimesGrow(i, k, interval + took);
      assert Worst(k, took)[i] == Beat(Failed, took, true);
    }
  }

  /** With the last short failure `slack` seconds before the fence, the abort comes
      `slack` seconds short of one interval and one timeout after it. */
  lemma LateAbort(start: real, interval: real, fenceAfter: real, k: nat, took: real, slack: real)
    requires interval >= 0.0 && 0.0 <= took <= REQUEST_TIMEOUT && 0.0 < slack <= interval + REQUEST_TIMEOUT
    requires Times(k, interval + took) == fenceAfter - slack
    ensures Partitioned(Worst(k, took), 0, k + 2)
    ensures After(start, interval, fenceAfter, Worst(k, took), 1).now == start
    ensures After(start, interval, fenceAfter, Worst(k, took), k + 2).aborts ==
            [start + fenceAfter - slack + interval + REQUEST_TIMEOUT]
  {
    var beats := Worst(k, took);
    BeforeTheFence(start, interval, fenceAfter, k, took, 0);
    BeforeTheFence(start, interval, fenceAfter, k, took, k);
    assert beats[0] == Beat(Answered, 0.0, true) && beats[k + 1] == Beat(Failed, REQUEST_TIMEOUT, true);
    forall i | 0 < i < k + 2
      ensures beats[i].outcome.Failed? && beats[i].busy && 0.0 <= beats[i].took <= REQUEST_TIMEOUT
    {
      assert i <= k ==> beats[i] == Beat(Failed, took, true);
    }
  }

  /** `k` failed turns can end anywhere up to the fence. */
  predicate Reaches(k: nat, interval: real, fenceAfter: real) {
    k > 0 && Times(k, interval) < fenceAfter <= Times(k, interval + REQUEST_TIMEOUT)
  }

  /** The other half of the bound: a row bumped any earlier than 120 - I - 30
      seconds before the contact can be requeued before the abort, if failures can
      end just short of the fence. */
  lemma FenceIsTight(start: real, interval: real, grace: real, updated: real, k: nat)
      returns (beats: seq<Beat>, abort: real)
    requires grace >= FENCE_MARGIN && interval >= 0.0 && Reaches(k, interval, FenceAfter(grace))
    requires updated < start - (FENCE_MARGIN - interval - REQUEST_TIMEOUT)
    ensures Partitioned(beats, 0, |beats|) && After(start, interval, FenceAfter(grace), beats, 1).now == start
    ensures After(start, interval, FenceAfter(grace), beats, |beats|).aborts == [abort]
    ensures exists t :: MayRequeue(updated, grace, t) && t < abort
  {
    var fence := FenceAfter(grace);
    var early := start - (FENCE_MARGIN - interval - REQUEST_TIMEOUT) - updated;
    var took, slack := EndsShort(k, interval, fence, early);
    LateAbort(start, interval, fence, k, took, slack);
    beats := Worst(k, took);
    abort := start + fence - slack + interval + REQUEST_TIMEOUT;
    var t := (updated + grace + abort) / 2.0;
    assert MayRequeue(updated, grace, t) && t < abort;
  }

  lemma EndsShort(k: nat, interval: real, fence: real, early: real) returns (took: real, slack: real)
    requires Reaches(k, interval, fence) && interval >= 0.0 && early > 0.0
    ensures 0.0 <= took <= REQUEST_TIMEOUT && 0.0 < slack < early && slack <= interval + REQUEST_TIMEOUT
    ensures Times(k, interval + took) == fence - slack
  {
    TimesIsProduct(k, interval);
    TimesIsProduct(k, interval + REQUEST_TIMEOUT);
    var room := fence - Times(k, interval);
    slack := if room < early then room / 2.0 else early / 2.0;
    slack := if slack < REQUEST_TIMEOUT then slack else REQUEST_TIMEOUT;
    took := Share(k, interval, fence - slack);
  }

  lemma Share(k: nat, interval: real, total: real) returns (took: real)
    requires k > 0 && k as real * interval <= total <= k as real * (interval + REQUEST_TIMEOUT)
    ensures 0.0 <= took <= REQUEST_TIMEOUT && Times(k, interval + took) == total
  {
    var n := k as real;
    var each := Quotient(n, total);
    took := each - interval;
    TimesIsProduct(k, interval + took);
    Cancel(n, interval, each, n * interval, total);
    Cancel(n, each, interval + REQUEST_TIMEOUT, total, n * (interval + REQUEST_TIMEOUT));
  }

  lemma Quotient(n: real, total: real) returns (each: real)
    requires n > 0.0
    ensures n * each == total
  {
    each := total / n;
  }

  /** For intervals up to 30 seconds (the default is 10) that is so for every fence
      beyond the first turn. */
  lemma {:induction false} ShortIntervalsReach(interval: real, fence: real, k: nat) returns (n: nat)
    requires 0.0 <= interval <= 30.0 && interval < fence && k > 0
    requires k > 1 ==> Times(k - 1, interval + REQUEST_TIMEOUT) < fence
    ensures Reaches(n, interval, fence)
    decreases (fence - Times(k - 1, interval + REQUEST_TIMEOUT)).Floor
  {
    assert Times(1, interval) == interval;
    if fence <= Times(k, interval + REQUEST_TIMEOUT) {
      n := k;
      if k > 1 { OneBehind(k, interval); }
    } else {
      n := ShortIntervalsReach(interval, fence, k + 1);
    }
  }

  lemma {:induction false} OneBehind(k: nat, interval: real)
    requires k > 1 && 0.0 <= interval <= 30.0
    ensures Times(k, interval) <= Times(k - 1, interval + REQUEST_TIMEOUT)
  {
    if k > 2 { OneBehind(k - 1, interval); }
    else {
      TimesIsProduct(2, interval);
      TimesIsProduct(1, interval + REQUEST_TIMEOUT);
    }
  }
}

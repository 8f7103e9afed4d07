/** The fixed-window rate limiter of the MCP endpoints, with its pruning. */
module Limiter {
  import opened Options

  type Caller = nat

  const WINDOW: real := 60.0
  const PRUNE_ABOVE: nat := 1024

  datatype Window = Window(started: real, count: nat)

  predicate Expired(w: Window, now: real) {
    now - w.started >= WINDOW
  }

  /** Seconds to wait; 0 means admitted. */
  function Wait(w: Option<Window>, limit: int, now: real): (seconds: nat)
    requires w.Some? ==> w.value.started <= now
    ensures seconds == 0 <==> w.None? || now - w.value.started >= 60.0 || w.value.count < limit
    ensures seconds > 0 ==> 60.0 < now + seconds as real - w.value.started <= 61.0
  {
    if w.None? || Expired(w.value, now) || w.value.count < limit then 0
    else (WINDOW - (now - w.value.started)).Floor + 1
  }

  /** The window of the key after the call. */
  function After(w: Option<Window>, limit: int, now: real): Window {
    if w.None? || Expired(w.value, now) then Window(now, 1)
    else if w.value.count >= limit then w.value
    else w.value.(count := w.value.count + 1)
  }

  function Lookup(ws: map<Caller, Window>, key: Caller): Option<Window> {
    if key in ws then Some(ws[key]) else None
  }

  function Pruned(ws: map<Caller, Window>, now: real): map<Caller, Window> {
    if |ws| > PRUNE_ABOVE then map k | k in ws && !Expired(ws[k], now) :: ws[k] else ws
  }

  function Allowed(ws: map<Caller, Window>, key: Caller, limit: int, now: real): map<Caller, Window> {
    var next := ws[key := After(Lookup(ws, key), limit, now)];
    if Lookup(ws, key).None? || Expired(ws[key], now) then Pruned(next, now) else next
  }

  class RateLimiter {
    var windows: map<Caller, Window>

    constructor ()
      ensures windows == map[]
    {
      windows := map[];
    }

    method Allow(key: Caller, limit: int, now: real) returns (seconds: nat)
      requires forall k | k in windows :: windows[k].started <= now
      modifies this
      ensures seconds == Wait(Lookup(old(windows), key), limit, now)
      ensures windows == Allowed(old(windows), key, limit, now)
      ensures forall k | k in windows :: windows[k].started <= now
    {
      if key !in windows || now - windows[key].started >= WINDOW {
        windows := windows[key := Window(now, 1)];
        Prune(now);
        return 0;
      }
      var w := windows[key];
      if w.count >= limit {
        var left := (WINDOW - (now - w.started)).Floor + 1;
        assert windows == windows[key := w];
        return if left > 1 then left else 1;
      }
      windows := windows[key := w.(count := w.count + 1)];
      return 0;
    }

    method Prune(now: real)
      modifies this
      ensures windows == Pruned(old(windows), now)
    {
      if |windows| <= PRUNE_ABOVE {
        return;
      }
      var stale := set k | k in windows && now - windows[k].started >= WINDOW;
      ghost var all := stale;
      while stale != {}
        invariant stale <= all && windows == old(windows) - (all - stale)
      {
        var k :| k in stale;
        windows, stale := windows - {k}, stale - {k};
      }
    }
  }

  // ---- Runs ----

  datatype Call = Call(key: Caller, limit: int, now: real)

  ghost predicate ClockMovesForward(calls: seq<Call>) {
    forall i, j | 0 <= i < j < |calls| :: calls[i].now <= calls[j].now
  }

  /** The windows after the first `n` calls, with pruning. */
  function Windows(calls: seq<Call>, n: nat): map<Caller, Window>
    requires n <= |calls|
  {
    if n == 0 then map[]
    else Allowed(Windows(calls, n - 1), calls[n - 1].key, calls[n - 1].limit, calls[n - 1].now)
  }

  /** The window of one key in a limiter that never prunes. */
  function Unpruned(calls: seq<Call>, n: nat, key: Caller): Option<Window>
    requires n <= |calls|
  {
    if n == 0 then None
    else if calls[n - 1].key == key then Some(After(Unpruned(calls, n - 1, key), calls[n - 1].limit, calls[n - 1].now))
    else Unpruned(calls, n - 1, key)
  }

  ghost predicate NoneFromTheFuture(ws: map<Caller, Window>, now: real) {
    forall k | k in ws :: ws[k].started <= now
  }

  lemma {:induction false} WindowsAreFromThePast(calls: seq<Call>, n: nat, now: real, key: Caller)
    requires ClockMovesForward(calls) && n <= |calls| && (n > 0 ==> calls[n - 1].now <= now)
    ensures NoneFromTheFuture(Windows(calls, n), now)
    ensures Unpruned(calls, n, key).Some? ==> Unpruned(calls, n, key).value.started <= now
  {
    if n > 0 { WindowsAreFromThePast(calls, n - 1, calls[n - 1].now, key); }
  }

  /** What a pruned window could have been: gone, and by now expired anyway. */
  ghost predicate Agrees(pruned: Option<Window>, full: Option<Window>, now: real) {
    pruned == full || (pruned.None? && full.Some? && Expired(full.value, now))
  }

  lemma {:induction false} PruningAgrees(calls: seq<Call>, n: nat, now: real, key: Caller)
    requires ClockMovesForward(calls) && n <= |calls| && (n > 0 ==> calls[n - 1].now <= now)
    ensures Agrees(Lookup(Windows(calls, n), key), Unpruned(calls, n, key), now)
  {
    if n > 0 { PruningAgrees(calls, n - 1, calls[n - 1].now, key); }
  }

  /** The answer to call `n`. */
  function Answer(calls: seq<Call>, n: nat): nat
    requires n < |calls| && NoneFromTheFuture(Windows(calls, n), calls[n].now)
  {
    Wait(Lookup(Windows(calls, n), calls[n].key), calls[n].limit, calls[n].now)
  }

  function UnprunedAnswer(calls: seq<Call>, n: nat): nat
    requires n < |calls|
    requires var w := Unpruned(calls, n, calls[n].key); w.Some? ==> w.value.started <= calls[n].now
  {
    Wait(Unpruned(calls, n, calls[n].key), calls[n].limit, calls[n].now)
  }

  lemma CallsAreInOrder(calls: seq<Call>, n: nat)
    requires ClockMovesForward(calls) && n < |calls|
    ensures NoneFromTheFuture(Windows(calls, n), calls[n].now)
    ensures forall key :: Unpruned(calls, n, key).Some? ==> Unpruned(calls, n, key).value.started <= calls[n].now
  {
    forall key
      ensures NoneFromTheFuture(Windows(calls, n), calls[n].now)
      ensures Unpruned(calls, n, key).Some? ==> Unpruned(calls, n, key).value.started <= calls[n].now
    {
      WindowsAreFromThePast(calls, n, calls[n].now, key);
    }
  }

  /** Pruning never changes an answer. */
  lemma PruningIsInvisible(calls: seq<Call>, n: nat)
    requires ClockMovesForward(calls) && n < |calls|
    ensures NoneFromTheFuture(Windows(calls, n), calls[n].now)
    ensures Unpruned(calls, n, calls[n].key).Some? ==> Unpruned(calls, n, calls[n].key).value.started <= calls[n].now
    ensures Answer(calls, n) == UnprunedAnswer(calls, n)
  {
    CallsAreInOrder(calls, n);
    PruningAgrees(calls, n, calls[n].now, calls[n].key);
  }

  // ---- Waiting ----

  lemma {:induction false} UntouchedBetween(calls: seq<Call>, m: nat, n: nat, key: Caller)
    requires m <= n <= |calls| && forall i | m <= i < n :: calls[i].key != key
    ensures Unpruned(calls, n, key) == Unpruned(calls, m, key)
    decreases n
  {
    if m < n { UntouchedBetween(calls, m, n - 1, key); }
  }

  /** A refusal leaves the window, which has expired when the wait is over. */
  lemma RefusalExpires(w: Option<Window>, limit: int, now: real, later: real)
    requires w.Some? ==> w.value.started <= now
    requires Wait(w, limit, now) > 0 && later >= now + Wait(w, limit, now) as real
    ensures w.Some? && After(w, limit, now) == w.value && Expired(w.value, later)
  {
  }

  /** A caller that waits the seconds it was told, with no other call on its key,
      is admitted. */
  lemma WaitingIsEnough(calls: seq<Call>, m: nat, n: nat)
    requires ClockMovesForward(calls) && m < n < |calls| && calls[m].key == calls[n].key
    requires forall i | m < i < n :: calls[i].key != calls[m].key
    requires NoneFromTheFuture(Windows(calls, m), calls[m].now) && Answer(calls, m) > 0
    requires calls[n].now >= calls[m].now + Answer(calls, m) as real
    ensures NoneFromTheFuture(Windows(calls, n), calls[n].now) && Answer(calls, n) == 0
  {
    PruningIsInvisible(calls, m);
    PruningIsInvisible(calls, n);
    WindowAfter(calls, m, n);
    RefusedThenAdmitted(Unpruned(calls, m, calls[m].key), calls[m].limit, calls[m].now, Answer(calls, m),
                        calls[n].limit, calls[n].now);
  }

  lemma WindowAfter(calls: seq<Call>, m: nat, n: nat)
    requires m < n < |calls| && forall i | m < i < n :: calls[i].key != calls[m].key
    ensures Unpruned(calls, n, calls[m].key) ==
            Some(After(Unpruned(calls, m, calls[m].key), calls[m].limit, calls[m].now))
  {
    UntouchedBetween(calls, m + 1, n, calls[m].key);
  }

  lemma RefusedThenAdmitted(w: Option<Window>, limit: int, now: real, seconds: nat, limit': int, later: real)
    requires (w.Some? ==> w.value.started <= now) && seconds == Wait(w, limit, now) && seconds > 0
    requires later >= now + seconds as real && After(w, limit, now).started <= later
    ensures Wait(Some(After(w, limit, now)), limit', later) == 0
  {
    RefusalExpires(w, limit, now, later);
    ExpiredIsAdmitted(w, limit', later);
  }

  lemma ExpiredIsAdmitted(w: Option<Window>, limit: int, now: real)
    requires w.Some? && w.value.started <= now && Expired(w.value, now)
    ensures Wait(w, limit, now) == 0
  {
  }

  // ---- The bound ----

  ghost predicate LimitedTo(calls: seq<Call>, key: Caller, most: nat) {
    most >= 1 && forall i | 0 <= i < |calls| && calls[i].key == key :: calls[i].limit <= most
  }

  predicate Admits(calls: seq<Call>, i: nat, key: Caller)
    requires i < |calls|
  {
    var w := Unpruned(calls, i, key);
    calls[i].key == key && (w.None? || Expired(w.value, calls[i].now) || w.value.count < calls[i].limit)
  }

  /** Calls on `key` among the first `n` that were admitted at `from` or later,
      within the 60 seconds that follow. */
  function AdmittedIn(calls: seq<Call>, n: nat, key: Caller, from: real): nat
    requires n <= |calls|
  {
    if n == 0 then 0
    else AdmittedIn(calls, n - 1, key, from) +
         if Admits(calls, n - 1, key) && from <= calls[n - 1].now < from + WINDOW then 1 else 0
  }

  lemma {:induction false} NoneBefore(calls: seq<Call>, n: nat, key: Caller, from: real)
    requires ClockMovesForward(calls) && n <= |calls| && (n > 0 ==> calls[n - 1].now < from)
    ensures AdmittedIn(calls, n, key, from) == 0
  {
    if n > 0 { NoneBefore(calls, n - 1, key, from); }
  }

  /** The count so far, by where the current window starts. */
  ghost predicate Bounded(w: Option<Window>, admitted: nat, from: real, most: nat) {
    match w
    case None => admitted == 0
    case Some(w) =>
      && 1 <= w.count <= most
      && (w.started < from ==> admitted <= w.count - 1)
      && (from <= w.started < from + WINDOW ==> admitted <= most - 1 + w.count)
      && admitted <= 2 * most - 1
  }

  lemma {:induction false} BoundHolds(calls: seq<Call>, n: nat, key: Caller, from: real, most: nat)
    requires ClockMovesForward(calls) && LimitedTo(calls, key, most) && n <= |calls|
    ensures Bounded(Unpruned(calls, n, key), AdmittedIn(calls, n, key, from), from, most)
  {
    if n > 0 {
      BoundHolds(calls, n - 1, key, from, most);
      WindowsAreFromThePast(calls, n - 1, calls[n - 1].now, key);
      if calls[n - 1].now < from { NoneBefore(calls, n, key, from); NoneBefore(calls, n - 1, key, from); }
    }
  }

  /** Any half-open interval of 60 seconds admits at most twice the limit less one
      per key: the call that opened the first of the two windows it can meet lies
      before it (a limit below one still admits one call per window). */
  lemma TwiceTheLimit(calls: seq<Call>, key: Caller, from: real, most: nat)
    requires ClockMovesForward(calls) && LimitedTo(calls, key, most)
    ensures AdmittedIn(calls, |calls|, key, from) <= 2 * most - 1
  {
    BoundHolds(calls, |calls|, key, from, most);
  }

  /** One call, the rest of the limit 59 seconds later, and the limit again when
      the window is over. */
  function Burst(most: nat): (calls: seq<Call>)
    requires most >= 1
    ensures |calls| == 2 * most
    ensures forall i | 0 <= i < |calls| ::
              calls[i] == Call(0, most, if i == 0 then 0.0 else if i < most then 59.0 else 60.0)
  {
    seq(2 * most, i => Call(0, most, if i == 0 then 0.0 else if i < most then 59.0 else 60.0))
  }

  lemma {:induction false} BurstIsAdmitted(most: nat, n: nat)
    requires most >= 1 && n <= 2 * most
    ensures var calls := Burst(most);
            && Unpruned(calls, n, 0) ==
               (if n == 0 then None else if n <= most then Some(Window(0.0, n)) else Some(Window(60.0, n - most)))
            && AdmittedIn(calls, n, 0, 59.0) == if n == 0 then 0 else n - 1
  {
    if n > 0 {
      BurstIsAdmitted(most, n - 1);
      assert Admits(Burst(most), n - 1, 0);
    }
  }

  /** The bound is attained, for every limit. */
  lemma TwiceTheLimitIsAttained(most: nat)
    requires most >= 1
    ensures var calls := Burst(most);
            && ClockMovesForward(calls) && LimitedTo(calls, 0, most)
            && AdmittedIn(calls, |calls|, 0, 59.0) == 2 * most - 1
  {
    BurstIsAdmitted(most, 2 * most);
  }

  /** `Admits` is what the limiter answers. */
  lemma AdmitsIsTheAnswer(calls: seq<Call>, n: nat)
    requires ClockMovesForward(calls) && n < |calls|
    ensures NoneFromTheFuture(Windows(calls, n), calls[n].now)
    ensures Admits(calls, n, calls[n].key) <==> Answer(calls, n) == 0
  {
    PruningIsInvisible(calls, n);
  }

  /** A limit of zero admits a call all the same: the first of a window is not
      held against the limit. */
  lemma ZeroStillAdmitsOne()
    ensures AdmittedIn([Call(0, 0, 0.0)], 1, 0, 0.0) == 1
  {
    assert Unpruned([Call(0, 0, 0.0)], 0, 0) == None;
    assert AdmittedIn([Call(0, 0, 0.0)], 0, 0, 0.0) == 0;
  }
}

/** Whole runs of the grant store: one-time credentials, consent, replay and
    revocation. */
module GrantRuns {
  import opened GrantTables
  import opened GrantInvariant
  import Undo

  datatype Trace = Trace(states: seq<State>, steps: seq<Step>)

  ghost predicate Run(tr: Trace) {
    && |tr.states| == |tr.steps| + 1
    && tr.states[0] == START
    && forall i | 0 <= i < |tr.steps| :: tr.states[i + 1] == Next(tr.states[i], tr.steps[i])
  }

  /** A run made one step longer. */
  ghost function Then(tr: Trace, st: Step, s: State): (longer: Trace)
    requires Run(tr) && s == Next(tr.states[|tr.steps|], st)
    ensures Run(longer) && |longer.steps| == |tr.steps| + 1
  {
    Trace(tr.states + [s], tr.steps + [st])
  }

  lemma {:induction false} InvHolds(tr: Trace, n: nat)
    requires Run(tr) && n < |tr.states|
    ensures Inv(tr.states[n])
  {
    if n > 0 {
      InvHolds(tr, n - 1);
      StepKeepsInv(tr.states[n - 1], tr.steps[n - 1]);
    }
  }

  /** For each grant, (unspent code) + (issuance under way) + (unspent refresh
      tokens) never exceeds 1, in what is pending and in what is durable. */
  lemma OneUnitPerGrant(tr: Trace, n: nat, g: Rid, u: Unit, v: Unit)
    requires Run(tr) && n < |tr.states|
    ensures IsUnit(tr.states[n].working, tr.states[n].reqs, g, u) &&
            IsUnit(tr.states[n].working, tr.states[n].reqs, g, v)
            ==> u == v
    ensures IsUnit(tr.states[n].committed, tr.states[n].reqs, g, u) &&
            IsUnit(tr.states[n].committed, tr.states[n].reqs, g, v)
            ==> u == v
  {
    InvHolds(tr, n);
  }

  // ---- Requests only go forward ----

  function Rank(pc: Pc): nat {
    match pc
    case Authorize(_) => 0
    case Parked(_) => 1
    case Arm(_) => 0
    case Deny(_, _) => 0
    case Approve(_, _) => 0
    case ApproveRead(_, _) => 1
    case ApproveGrant(_, _, _) => 2
    case ApproveMint(_, _, _, _) => 3
    case Minted(_, _, _) => 4
    case Present(_, _, _) => 0
    case Spend(_, _) => 1
    case SpendCommit(_, _, _) => 2
    case SpendCheck(_, _) => 3
    case Decide(_, _, _) => 4
    case Issue(_) => 5
    case IssueAccess(_, _, _) => 6
    case IssueRefresh(_, _) => 7
    case Issued(_) => 8
    case RevokeBy(_, _) => 4
    case Revoke(_) => 5
    case RevokeCommit(_) => 6
    case Done => 9
  }

  /** A request with nothing left to do. */
  predicate Ended(pc: Pc) { pc.Parked? || pc.Minted? || pc.Issued? || pc.Done? }

  lemma ActAdvances(w: Tables, r: Rid, pc: Pc, now: Instant)
    ensures var next := Proceed(w, r, pc, now).pc; if Ended(pc) then next == pc else Rank(pc) < Rank(next)
  {
  }

  lemma {:induction false} RankGrows(tr: Trace, m: nat, n: nat, r: Rid)
    requires Run(tr) && m <= n < |tr.states| && r in tr.states[m].reqs
    ensures r in tr.states[n].reqs && Rank(tr.states[m].reqs[r]) <= Rank(tr.states[n].reqs[r])
    decreases n
  {
    if m < n {
      RankGrows(tr, m, n - 1, r);
      StepAdvances(tr.states[n - 1], tr.steps[n - 1], r);
    }
  }

  lemma StepAdvances(s: State, st: Step, r: Rid)
    requires r in s.reqs
    ensures var s' := Next(s, st);
            r in s'.reqs && (s'.reqs[r] == s.reqs[r] || (st.Act? && st.r == r && Rank(s.reqs[r]) < Rank(s'.reqs[r])))
  {
    if st.Act? && st.r == r { ActAdvances(s.working, r, s.reqs[r], st.now); }
  }

  /** A request takes each of its steps once. */
  lemma OneMove(tr: Trace, m: nat, n: nat, r: Rid)
    requires Run(tr) && m < |tr.steps| && n < |tr.steps|
    requires tr.steps[m].Act? && tr.steps[m].r == r && tr.steps[n].Act? && tr.steps[n].r == r
    requires r in tr.states[m].reqs && r in tr.states[n].reqs && !Ended(tr.states[m].reqs[r]) &&
            !Ended(tr.states[n].reqs[r])
    requires Rank(tr.states[m].reqs[r]) == Rank(tr.states[n].reqs[r])
    ensures m == n
  {
    ActAdvances(tr.states[m].working, r, tr.states[m].reqs[r], tr.steps[m].now);
    ActAdvances(tr.states[n].working, r, tr.states[n].reqs[r], tr.steps[n].now);
    assert tr.states[m + 1] == Next(tr.states[m], tr.steps[m]);
    assert tr.states[n + 1] == Next(tr.states[n], tr.steps[n]);
    if m < n { RankGrows(tr, m + 1, n, r); }
    if n < m { RankGrows(tr, n + 1, m, r); }
  }

  // ---- One-time credentials ----

  /** At step `n` request `r` reads its own marker back: it has spent `cred`. */
  ghost predicate WinsAt(tr: Trace, n: nat, cred: Cred, r: Rid)
    requires Run(tr)
  {
    && n < |tr.steps| && tr.steps[n].Act? && tr.steps[n].r == r
    && r in tr.states[n].reqs && tr.states[n].reqs[r].SpendCheck? && tr.states[n].reqs[r].cred == cred
    && Bears(tr.states[n].working, cred, SpentBy(r))
  }

  ghost predicate Spent(s: State, cred: Cred, r: Rid) {
    && (cred.Code? ==> IsMinted(s.reqs, cred.approval))
    && Bound(s.working, cred, r) && Bound(s.committed, cred, r)
  }

  lemma BoundStays(w: Tables, w': Tables, reqs: map<Rid, Pc>, q: Rid, cred: Cred, r: Rid)
    requires q in reqs && Moves(w, w', q, reqs[q].ApproveMint?) && Bound(w, cred, r)
    requires cred.Code? ==> IsMinted(reqs, cred.approval)
    ensures Bound(w', cred, r)
  {
  }

  lemma ActKeepsBound(w: Tables, reqs: map<Rid, Pc>, q: Rid, now: Instant, cred: Cred, r: Rid)
    requires RowsFit(w, reqs) && q in reqs && Bound(w, cred, r)
    requires cred.Code? ==> IsMinted(reqs, cred.approval)
    ensures Bound(Proceed(w, q, reqs[q], now).db, cred, r)
  {
    ActMoves(w, reqs, q, now);
    BoundStays(w, Proceed(w, q, reqs[q], now).db, reqs, q, cred, r);
  }

  lemma MintedStays(s: State, st: Step, g: Rid)
    requires IsMinted(s.reqs, g)
    ensures IsMinted(Next(s, st).reqs, g) && Next(s, st).reqs[g] == s.reqs[g]
  {
    if st.Act? && st.r == g { ActAdvances(s.working, g, s.reqs[g], st.now); }
  }

  lemma PurgeKeepsBound(w: Tables, now: Instant, cred: Cred, r: Rid)
    requires Bound(w, cred, r)
    ensures Bound(w.(txns := map t | t in w.txns && w.txns[t].expires >= now :: w.txns[t]), cred, r)
  {
    var w' := w.(txns := map t | t in w.txns && w.txns[t].expires >= now :: w.txns[t]);
    if cred.Code? {
      forall t | HasCode(w', t, cred.approval) ensures w'.txns[t].consumed == SpentBy(r) {
        assert HasCode(w, t, cred.approval);
      }
    }
  }

  lemma SpentStays(s: State, st: Step, cred: Cred, r: Rid)
    requires RowsFit(s.working, s.reqs) && Spent(s, cred, r)
    ensures Spent(Next(s, st), cred, r)
  {
    if cred.Code? { MintedStays(s, st, cred.approval); }
    if st.Act? {
      if st.r in s.reqs { ActKeepsBound(s.working, s.reqs, st.r, st.now, cred, r); }
    } else {
      OthersKeepBound(s, st, cred, r);
    }
  }

  lemma OthersKeepBound(s: State, st: Step, cred: Cred, r: Rid)
    requires !st.Act? && Bound(s.working, cred, r) && Bound(s.committed, cred, r)
    ensures Bound(Next(s, st).working, cred, r) && Bound(Next(s, st).committed, cred, r)
  {
    if st.Purge? { PurgeKeepsBound(s.working, st.now, cred, r); }
    if st.Disable? { SameRows(s.working, Next(s, st).working, cred, r); }
  }

  /** Once spent, a credential stays spent by the same request, in what is
      pending and in what is durable, whatever is rolled back later. */
  lemma {:induction false} SpentForGood(tr: Trace, n: nat, m: nat, cred: Cred, r: Rid)
    requires Run(tr) && WinsAt(tr, n, cred, r) && n < m < |tr.states|
    ensures Spent(tr.states[m], cred, r)
    decreases m
  {
    if n + 1 < m {
      SpentForGood(tr, n, m - 1, cred, r);
      InvHolds(tr, m - 1);
      SpentStays(tr.states[m - 1], tr.steps[m - 1], cred, r);
    } else {
      InvHolds(tr, n);
      WinIsSpent(tr.states[n], cred, r);
      SpentStays(tr.states[n], tr.steps[n], cred, r);
    }
  }

  lemma WinIsSpent(s: State, cred: Cred, r: Rid)
    requires Shape(s) && Spenders(s) && r in s.reqs && s.reqs[r].SpendCheck? && s.reqs[r].cred == cred
    requires Bears(s.working, cred, SpentBy(r))
    ensures Spent(s, cred, r)
  {
    assert SpenderFits(s.working, s.committed, r, s.reqs[r]);
    BearsIsBound(s.working, s.reqs, cred, r);
    BearsIsBound(s.committed, s.reqs, cred, r);
  }

  lemma OneMarker(d: Tables, cred: Cred, r: Rid, q: Rid)
    requires Bound(d, cred, r) && Bears(d, cred, SpentBy(q))
    ensures q == r
  {
  }

  /** At most one redemption of a code or refresh token ever succeeds. */
  lemma OneRedemptionWins(tr: Trace, n: nat, m: nat, cred: Cred, r: Rid, q: Rid)
    requires Run(tr) && WinsAt(tr, n, cred, r) && WinsAt(tr, m, cred, q)
    ensures n == m && r == q
  {
    if n < m {
      SpentForGood(tr, n, m, cred, r);
      OneMarker(tr.states[m].working, cred, r, q);
    } else if m < n {
      SpentForGood(tr, m, n, cred, q);
      OneMarker(tr.states[n].working, cred, q, r);
    }
    if r == q { OneMove(tr, n, m, r); }
  }

  // ---- Steps of one request ----

  predicate ActsAt(tr: Trace, m: nat, r: Rid) {
    m < |tr.steps| && m < |tr.states| && tr.steps[m].Act? && tr.steps[m].r == r && r in tr.states[m].reqs
  }

  lemma {:induction false} ParkedStays(tr: Trace, m: nat, n: nat, t: Rid)
    requires Run(tr) && m <= n < |tr.states| && t in tr.states[m].reqs && Ended(tr.states[m].reqs[t])
    ensures t in tr.states[n].reqs && tr.states[n].reqs[t] == tr.states[m].reqs[t]
    decreases n
  {
    if m < n {
      ParkedStays(tr, m, n - 1, t);
      EndedStays(tr.states[n - 1], tr.steps[n - 1], t);
    }
  }

  lemma EndedStays(s: State, st: Step, t: Rid)
    requires t in s.reqs && Ended(s.reqs[t])
    ensures t in Next(s, st).reqs && Next(s, st).reqs[t] == s.reqs[t]
  {
    if st.Act? && st.r == t { ActAdvances(s.working, t, s.reqs[t], st.now); }
  }

  lemma NewRows(w: Tables, r: Rid, pc: Pc, now: Instant, t: Rid)
    ensures t in Proceed(w, r, pc, now).db.txns && t !in w.txns ==> t == r && pc.Authorize?
  {
  }

  // ---- What a rollback undoes ----

  function KindOf(s: State, st: Step): Undo.Kind {
    if st.Rollback? then Undo.RollsBack
    else if st.Commit? || (st.Act? && st.r in s.reqs && Commits(s.reqs[st.r])) then Undo.Commits
    else Undo.Plain
  }

  function Kinds(tr: Trace): (kinds: seq<Undo.Kind>)
    ensures |kinds| == |tr.steps|
    ensures forall i | 0 <= i < |kinds| && i < |tr.states| :: kinds[i] == KindOf(tr.states[i], tr.steps[i])
  {
    seq(|tr.steps|, i requires 0 <= i < |tr.steps| =>
      if i < |tr.states| then KindOf(tr.states[i], tr.steps[i]) else Undo.Plain)
  }

  predicate CommitsAt(tr: Trace, l: nat) {
    l < |tr.steps| && Kinds(tr)[l].Commits?
  }

  ghost predicate CommittedBetween(tr: Trace, i: int, j: int) {
    Undo.Committed(Kinds(tr), i, j)
  }

  /** Another request's rollback comes first. */
  ghost predicate UndoneBetween(tr: Trace, i: int, j: int) {
    Undo.Undone(Kinds(tr), i, j)
  }

  lemma OneStepOn(tr: Trace, i: nat, j: nat)
    requires i < j < |tr.steps| && j < |tr.states|
    ensures CommittedBetween(tr, i, j + 1) <==> CommittedBetween(tr, i, j) || CommitsAt(tr, j)
    ensures UndoneBetween(tr, i, j + 1) <==>
            UndoneBetween(tr, i, j) || (tr.steps[j].Rollback? && !CommittedBetween(tr, i, j))
    ensures CommitsAt(tr, j) <==> KindOf(tr.states[j], tr.steps[j]).Commits?
  {
    Undo.OneStepOn(Kinds(tr), i, j);
  }

  /** Until something commits, what is durable stays as it was. */
  lemma {:induction false} DurableUntilCommit(tr: Trace, i: nat, j: nat)
    requires Run(tr) && i < j < |tr.states| && !CommitsAt(tr, i) && !CommittedBetween(tr, i, j)
    ensures tr.states[j].committed == tr.states[i].committed
    decreases j
  {
    if i + 1 < j {
      OneStepOn(tr, i, j - 1);
      DurableUntilCommit(tr, i, j - 1);
    }
    assert tr.states[j] == Next(tr.states[j - 1], tr.steps[j - 1]);
  }
}

/** What a redemption comes to at the end of its steps: an exchange or a rotation
    issues a pair of tokens exactly under the conditions that the token endpoint
    checks, whatever other requests do between its statements. */
module GrantIssuance {
  import opened Options
  import opened GrantTables
  import opened GrantInvariant
  import opened GrantRuns
  import Undo

  // ---- The steps of one request ----

  predicate IsActOf(tr: Trace, m: nat, r: Rid) {
    m < |tr.steps| && tr.steps[m].Act? && tr.steps[m].r == r
  }

  /** After its act at `i`, the next act of `r` is at `j`. */
  ghost predicate NextAct(tr: Trace, i: nat, j: nat, r: Rid) {
    i < j && ActsAt(tr, i, r) && ActsAt(tr, j, r) && forall m: nat | i < m < j :: !IsActOf(tr, m, r)
  }

  /** Between its own acts a request stays where it is. */
  lemma {:induction false} Waits(tr: Trace, i: nat, j: nat, r: Rid)
    requires Run(tr) && ActsAt(tr, i, r) && i < j < |tr.states| && forall m: nat | i < m < j :: !IsActOf(tr, m, r)
    ensures r in tr.states[j].reqs
    ensures tr.states[j].reqs[r] == Proceed(tr.states[i].working, r, tr.states[i].reqs[r], tr.steps[i].now).pc
    decreases j
  {
    assert tr.states[j] == Next(tr.states[j - 1], tr.steps[j - 1]);
    if i + 1 < j {
      Waits(tr, i, j - 1, r);
      assert !IsActOf(tr, j - 1, r);
      StepAdvances(tr.states[j - 1], tr.steps[j - 1], r);
    }
  }

  // ---- Rows that refer to a grant ----

  /** A code and a token are recorded only while their grant is there. */
  ghost predicate Grounded(d: Tables) {
    && (forall t | t in d.txns && d.txns[t].code.Some? :: d.txns[t].code.value in d.grants)
    && (forall c | c in d.tokens :: c.Grant() in d.grants)
  }

  lemma ConsentGrounds(w: Tables, r: Rid, pc: Pc, now: Instant)
    requires Grounded(w) && IsConsent(pc)
    ensures Grounded(Consent(w, r, pc, now).db)
  {
  }

  lemma RedeemGrounds(w: Tables, r: Rid, pc: Pc, now: Instant)
    requires Grounded(w) && !IsConsent(pc)
    ensures Grounded(Redeem(w, r, pc, now).db)
  {
    if pc.Spend? { StampGrounds(w, r, pc.cred); }
  }

  lemma StampGrounds(w: Tables, r: Rid, cred: Cred)
    requires Grounded(w)
    ensures Grounded(Stamped(w, r, cred).0)
  {
  }

  lemma {:induction false} AllGrounded(tr: Trace, n: nat)
    requires Run(tr) && n < |tr.states|
    ensures Grounded(tr.states[n].working) && Grounded(tr.states[n].committed)
  {
    if n > 0 {
      AllGrounded(tr, n - 1);
      var s, st := tr.states[n - 1], tr.steps[n - 1];
      assert tr.states[n] == Next(s, st);
      if st.Act? && st.r in s.reqs {
        if IsConsent(s.reqs[st.r]) {
          ConsentGrounds(s.working, st.r, s.reqs[st.r], st.now);
        } else {
          RedeemGrounds(s.working, st.r, s.reqs[st.r], st.now);
        }
      }
    }
  }

  /** The grant is there, and no rollback takes it away. */
  predicate Settled(s: State, g: Rid) {
    g in s.working.grants && g in s.committed.grants
  }

  lemma GrantsStay(w: Tables, r: Rid, pc: Pc, now: Instant)
    ensures w.grants.Keys <= Proceed(w, r, pc, now).db.grants.Keys
  {
  }

  lemma {:induction false} SettledForGood(tr: Trace, m: nat, n: nat, g: Rid)
    requires Run(tr) && m <= n < |tr.states| && Settled(tr.states[m], g)
    ensures Settled(tr.states[n], g)
    decreases n
  {
    if m < n {
      SettledForGood(tr, m, n - 1, g);
      var s, st := tr.states[n - 1], tr.steps[n - 1];
      assert tr.states[n] == Next(s, st);
      if st.Act? && st.r in s.reqs { GrantsStay(s.working, st.r, s.reqs[st.r], st.now); }
    }
  }

  // ---- The fate of a stamp ----

  /** What the pending and the durable tables may show of a stamp, given whether
      it has been undone and whether it has been committed. */
  ghost predicate Fate(undone: bool, committed: bool, w: Tables, c: Tables, cred: Cred, r: Rid) {
    && (if undone then !Bears(w, cred, SpentBy(r)) else Bound(w, cred, r))
    && (if undone || !committed then !Bears(c, cred, SpentBy(r)) else Bound(c, cred, r))
  }

  /** The stamp that request `r` put on `cred` at step `i`, as state `j` shows it. */
  ghost predicate Marked(tr: Trace, i: nat, j: nat, cred: Cred, r: Rid)
    requires j < |tr.states|
  {
    && (cred.Code? ==> IsMinted(tr.states[j].reqs, cred.approval))
    && Fate(UndoneBetween(tr, i, j), CommittedBetween(tr, i, j), tr.states[j].working, tr.states[j].committed, cred, r)
  }

  lemma OthersLeaveTheMarker(s: State, st: Step, cred: Cred, r: Rid)
    requires Shape(s) && r in s.reqs && Spending(s.reqs[r]) && s.reqs[r].cred == cred && !st.Rollback?
    requires cred.Code? ==> IsMinted(s.reqs, cred.approval)
    ensures Bound(s.working, cred, r) ==> Bound(Next(s, st).working, cred, r)
    ensures !Bears(s.working, cred, SpentBy(r)) ==> !Bears(Next(s, st).working, cred, SpentBy(r))
  {
    if st.Act? && st.r in s.reqs {
      if st.r == r {
        SpendingLeavesDb(s.working, r, s.reqs[r], st.now);
      } else {
        ActMoves(s.working, s.reqs, st.r, st.now);
        OthersKeepStamps(s.working, Next(s, st).working, s.reqs, st.r, r);
        if Bound(s.working, cred, r) { ActKeepsBound(s.working, s.reqs, st.r, st.now, cred, r); }
      }
    } else if st.Purge? {
      PurgeOnlyForgets(s, Next(s, st), r, st.now);
    } else if st.Disable? {
      SameRows(s.working, Next(s, st).working, cred, r);
    }
  }

  lemma FateOneOn(s: State, st: Step, undone: bool, committed: bool, cred: Cred, r: Rid)
    requires Shape(s) && r in s.reqs && Spending(s.reqs[r]) && s.reqs[r].cred == cred
    requires cred.Code? ==> IsMinted(s.reqs, cred.approval)
    requires Fate(undone, committed, s.working, s.committed, cred, r)
    ensures Fate(undone || (st.Rollback? && !committed), committed || KindOf(s, st).Commits?,
                 Next(s, st).working, Next(s, st).committed, cred, r)
  {
    if !st.Rollback? { OthersLeaveTheMarker(s, st, cred, r); }
    DurableStep(s, st);
  }

  lemma DurableStep(s: State, st: Step)
    ensures Next(s, st).committed == if KindOf(s, st).Commits? then Next(s, st).working else s.committed
  {
  }

  lemma MarkedOneOn(tr: Trace, i: nat, j: nat, cred: Cred, r: Rid)
    requires Run(tr) && i < j < |tr.steps| && Marked(tr, i, j, cred, r)
    requires r in tr.states[j].reqs && Spending(tr.states[j].reqs[r]) && tr.states[j].reqs[r].cred == cred
    ensures Marked(tr, i, j + 1, cred, r)
  {
    InvHolds(tr, j);
    OneStepOn(tr, i, j);
    if cred.Code? { MintedStays(tr.states[j], tr.steps[j], cred.approval); }
    FateOneOn(tr.states[j], tr.steps[j], UndoneBetween(tr, i, j), CommittedBetween(tr, i, j), cred, r);
  }

  /** The conditional UPDATE goes through exactly on an unspent row. */
  lemma StampsTheUnspent(d: Tables, reqs: map<Rid, Pc>, r: Rid, cred: Cred)
    requires RowsFit(d, reqs)
    ensures Stamped(d, r, cred).1 <==> Bears(d, cred, Open)
    ensures Stamped(d, r, cred).1 ==> Bears(Stamped(d, r, cred).0, cred, SpentBy(r))
  {
    if cred.Code? {
      var t := CodeRow(d, cred.approval);
      if Bears(d, cred, Open) {
        var u :| HasCode(d, u, cred.approval) && d.txns[u].consumed.Open?;
        assert TxnFits(reqs, u, d.txns[u]) && TxnFits(reqs, t.value, d.txns[t.value]);
      }
      if Stamped(d, r, cred).1 { assert HasCode(Stamped(d, r, cred).0, t.value, cred.approval); }
    }
  }

  lemma {:induction false} MarkedHolds(tr: Trace, i: nat, j: nat, cred: Cred, r: Rid)
    requires Run(tr) && i < j < |tr.states| && ActsAt(tr, i, r)
    requires tr.states[i].reqs[r].Spend? && tr.states[i].reqs[r].cred == cred && Bears(tr.states[i].working, cred, Open)
    requires forall m: nat | i < m < j ::
               r in tr.states[m].reqs && Spending(tr.states[m].reqs[r]) && tr.states[m].reqs[r].cred == cred
    ensures Marked(tr, i, j, cred, r)
    decreases j
  {
    if i + 1 < j {
      MarkedHolds(tr, i, j - 1, cred, r);
      MarkedOneOn(tr, i, j - 1, cred, r);
    } else {
      MarkedAtFirst(tr, i, cred, r);
    }
  }

  lemma MarkedAtFirst(tr: Trace, i: nat, cred: Cred, r: Rid)
    requires Run(tr) && ActsAt(tr, i, r)
    requires tr.states[i].reqs[r].Spend? && tr.states[i].reqs[r].cred == cred && Bears(tr.states[i].working, cred, Open)
    ensures Marked(tr, i, i + 1, cred, r)
  {
    InvHolds(tr, i);
    InvHolds(tr, i + 1);
    FirstStamp(tr.states[i], tr.steps[i], cred, r);
    ShownMarker(tr.states[i + 1], cred, r);
  }

  lemma FirstStamp(s: State, st: Step, cred: Cred, r: Rid)
    requires RowsFit(s.working, s.reqs) && RowsFit(s.committed, s.reqs)
    requires st.Act? && st.r == r && r in s.reqs && s.reqs[r].Spend? && s.reqs[r].cred == cred
    requires Bears(s.working, cred, Open)
    ensures Bears(Next(s, st).working, cred, SpentBy(r)) && !Bears(Next(s, st).committed, cred, SpentBy(r))
  {
    StampsTheUnspent(s.working, s.reqs, r, cred);
    FreshMarker(s.committed, s.reqs, r, cred);
    SpendStamps(s.working, r, s.reqs[r], st.now);
  }

  lemma SpendStamps(w: Tables, r: Rid, pc: Pc, now: Instant)
    requires pc.Spend?
    ensures Proceed(w, r, pc, now).db == Stamped(w, r, pc.cred).0
  {
  }

  lemma ShownMarker(s: State, cred: Cred, r: Rid)
    requires Shape(s) && Bears(s.working, cred, SpentBy(r))
    ensures Bound(s.working, cred, r) && (cred.Code? ==> IsMinted(s.reqs, cred.approval))
  {
    BearsIsBound(s.working, s.reqs, cred, r);
    if cred.Code? {
      var t :| HasCode(s.working, t, cred.approval) && s.working.txns[t].consumed == SpentBy(r);
      assert TxnFits(s.reqs, t, s.working.txns[t]);
    }
  }

  // ---- The token endpoint, from the UPDATE to the decision ----

  /** The acts of a redemption: the UPDATE, its commit, the read-back, the
      decision, the look at the grant, and the two INSERTs. */
  datatype Path = Path(spend: nat, commit: nat, check: nat, decide: nat, read: nat, access: nat, refresh: nat)

  ghost predicate Walks(tr: Trace, r: Rid, p: Path) {
    && NextAct(tr, p.spend, p.commit, r) && NextAct(tr, p.commit, p.check, r) && NextAct(tr, p.check, p.decide, r)
    && NextAct(tr, p.decide, p.read, r) && NextAct(tr, p.read, p.access, r) && NextAct(tr, p.access, p.refresh, r)
  }

  /** A request that issues nothing any more. */
  predicate Off(pc: Pc) {
    !Issuing(pc) && !pc.Issued? && !Spending(pc) && !pc.Spend? && !pc.Present?
  }

  lemma OffStays(w: Tables, r: Rid, pc: Pc, now: Instant)
    requires Off(pc)
    ensures Off(Proceed(w, r, pc, now).pc)
  {
  }

  ghost predicate StillThere(d: Tables, cred: Cred) {
    cred.Code? ==> exists t :: HasCode(d, t, cred.approval)
  }

  /** The credential is unspent at the UPDATE, no rollback comes before the commit,
      and the row is still there at the read-back. */
  ghost predicate Wins(tr: Trace, p: Path, cred: Cred)
    requires p.spend < |tr.states| && p.check < |tr.states|
  {
    && Bears(tr.states[p.spend].working, cred, Open) && !UndoneBetween(tr, p.spend, p.commit)
    && StillThere(tr.states[p.check].working, cred)
  }

  /** Exactly then the request comes to decide as the one that has spent the
      credential; otherwise it is off by the time of that step. */
  lemma WinsIff(tr: Trace, r: Rid, p: Path, cred: Cred, ask: Ask)
    requires Run(tr) && Walks(tr, r, p) && tr.states[p.spend].reqs[r] == Spend(cred, ask)
    ensures Wins(tr, p, cred) ==> tr.states[p.decide].reqs[r] == Decide(cred, ask, true)
    ensures !Wins(tr, p, cred) ==> Off(tr.states[p.decide + 1].reqs[r])
  {
    ToTheCheck(tr, r, p, cred, ask);
    if Bears(tr.states[p.spend].working, cred, Open) {
      ReadBack(tr, r, p, cred, ask);
      FromTheCheck(tr, r, p, cred, ask);
    } else {
      Waits(tr, p.check, p.decide, r);
      Waits(tr, p.decide, p.decide + 1, r);
      LostRace(tr.states[p.check].working, tr.states[p.decide].working, r, cred, ask, tr.steps[p.check].now,
               tr.steps[p.decide].now);
    }
  }

  lemma Spends(w: Tables, r: Rid, cred: Cred, ask: Ask, changed: bool, now: Instant)
    ensures Proceed(w, r, Spend(cred, ask), now).pc == SpendCommit(cred, ask, Stamped(w, r, cred).1)
    ensures Proceed(w, r, SpendCommit(cred, ask, changed), now).pc ==
            if changed then SpendCheck(cred, ask) else Decide(cred, ask, false)
    ensures Proceed(w, r, SpendCheck(cred, ask), now).pc == Decide(cred, ask, Bears(w, cred, SpentBy(r)))
    ensures Off(Proceed(w, r, Decide(cred, ask, false), now).pc)
  {
  }

  lemma ToTheCheck(tr: Trace, r: Rid, p: Path, cred: Cred, ask: Ask)
    requires Run(tr) && Walks(tr, r, p) && tr.states[p.spend].reqs[r] == Spend(cred, ask)
    ensures var open := Bears(tr.states[p.spend].working, cred, Open);
            && tr.states[p.commit].reqs[r] == SpendCommit(cred, ask, open)
            && tr.states[p.check].reqs[r] == if open then SpendCheck(cred, ask) else Decide(cred, ask, false)
  {
    InvHolds(tr, p.spend);
    StampsTheUnspent(tr.states[p.spend].working, tr.states[p.spend].reqs, r, cred);
    Waits(tr, p.spend, p.commit, r);
    Waits(tr, p.commit, p.check, r);
    Spends(tr.states[p.spend].working, r, cred, ask, true, tr.steps[p.spend].now);
    var open := Bears(tr.states[p.spend].working, cred, Open);
    Spends(tr.states[p.commit].working, r, cred, ask, open, tr.steps[p.commit].now);
  }

  lemma FromTheCheck(tr: Trace, r: Rid, p: Path, cred: Cred, ask: Ask)
    requires Run(tr) && Walks(tr, r, p) && tr.states[p.check].reqs[r] == SpendCheck(cred, ask)
    ensures var mine := Bears(tr.states[p.check].working, cred, SpentBy(r));
            && tr.states[p.decide].reqs[r] == Decide(cred, ask, mine)
            && (!mine ==> Off(tr.states[p.decide + 1].reqs[r]))
  {
    Waits(tr, p.check, p.decide, r);
    Waits(tr, p.decide, p.decide + 1, r);
    Spends(tr.states[p.check].working, r, cred, ask, true, tr.steps[p.check].now);
    Spends(tr.states[p.decide].working, r, cred, ask, true, tr.steps[p.decide].now);
  }

  lemma LostRace(w: Tables, w': Tables, r: Rid, cred: Cred, ask: Ask, now: Instant, later: Instant)
    ensures Off(Proceed(w', r, Proceed(w, r, Decide(cred, ask, false), now).pc, later).pc)
  {
    Spends(w, r, cred, ask, false, now);
    OffStays(w', r, Proceed(w, r, Decide(cred, ask, false), now).pc, later);
  }

  /** The read-back finds the marker exactly when the stamp was not undone and the
      row is still there. */
  lemma ReadBack(tr: Trace, r: Rid, p: Path, cred: Cred, ask: Ask)
    requires Run(tr) && Walks(tr, r, p)
    requires tr.states[p.spend].reqs[r] == Spend(cred, ask) && Bears(tr.states[p.spend].working, cred, Open)
    requires tr.states[p.commit].reqs[r] == SpendCommit(cred, ask, true)
    requires tr.states[p.check].reqs[r] == SpendCheck(cred, ask)
    ensures Bears(tr.states[p.check].working, cred, SpentBy(r)) <==> Wins(tr, p, cred)
  {
    SpendingUntilTheCheck(tr, r, p, cred, ask);
    MarkedHolds(tr, p.spend, p.check, cred, r);
    CommitOnTheWay(tr, r, p);
    BoundShows(tr.states[p.check].working, cred, r);
  }

  lemma CommitOnTheWay(tr: Trace, r: Rid, p: Path)
    requires Run(tr) && Walks(tr, r, p) && tr.states[p.commit].reqs[r].SpendCommit?
    ensures UndoneBetween(tr, p.spend, p.check) <==> UndoneBetween(tr, p.spend, p.commit)
  {
    assert Kinds(tr)[p.commit].Commits?;
    Undo.CommitSettles(Kinds(tr), p.spend, p.commit, p.check);
  }

  lemma BoundShows(d: Tables, cred: Cred, r: Rid)
    ensures Bound(d, cred, r) ==> (Bears(d, cred, SpentBy(r)) <==> StillThere(d, cred))
  {
  }

  lemma SpendingUntilTheCheck(tr: Trace, r: Rid, p: Path, cred: Cred, ask: Ask)
    requires Run(tr) && Walks(tr, r, p) && tr.states[p.commit].reqs[r] == SpendCommit(cred, ask, true)
    requires tr.states[p.check].reqs[r] == SpendCheck(cred, ask)
    ensures forall m: nat | p.spend < m < p.check ::
              r in tr.states[m].reqs && Spending(tr.states[m].reqs[r]) && tr.states[m].reqs[r].cred == cred
  {
    forall m: nat | p.spend < m < p.check
      ensures r in tr.states[m].reqs && Spending(tr.states[m].reqs[r]) && tr.states[m].reqs[r].cred == cred
    {
      if m <= p.commit { StillAt(tr, p.spend, m, p.commit, r); } else { StillAt(tr, p.commit, m, p.check, r); }
    }
  }

  lemma StillAt(tr: Trace, i: nat, m: nat, j: nat, r: Rid)
    requires Run(tr) && NextAct(tr, i, j, r) && i < m <= j
    ensures r in tr.states[m].reqs && tr.states[m].reqs[r] == tr.states[j].reqs[r]
  {
    Waits(tr, i, m, r);
    Waits(tr, i, j, r);
  }

  // ---- From the decision to the tokens ----

  predicate Holds(d: Tables, c: Cred, row: Token) {
    c in d.tokens && d.tokens[c] == row
  }

  lemma {:induction false} OffForGood(tr: Trace, m: nat, n: nat, r: Rid)
    requires Run(tr) && m <= n < |tr.states| && r in tr.states[m].reqs && Off(tr.states[m].reqs[r])
    ensures r in tr.states[n].reqs && Off(tr.states[n].reqs[r])
    decreases n
  {
    if m < n {
      OffForGood(tr, m, n - 1, r);
      StepAdvances(tr.states[n - 1], tr.steps[n - 1], r);
      if IsActOf(tr, n - 1, r) {
        Waits(tr, n - 1, n, r);
        OffStays(tr.states[n - 1].working, r, tr.states[n - 1].reqs[r], tr.steps[n - 1].now);
      }
    }
  }

  lemma NothingIssued(tr: Trace, m: nat, n: nat, r: Rid, g: Rid)
    requires Run(tr) && m <= n < |tr.states| && r in tr.states[m].reqs && Off(tr.states[m].reqs[r])
    ensures Access(r, g) !in tr.states[n].working.tokens && Refresh(r, g) !in tr.states[n].working.tokens
  {
    OffForGood(tr, m, n, r);
    InvHolds(tr, n);
    OffHasNone(tr.states[n].working, tr.states[n].reqs, r, g);
  }

  lemma OffHasNone(d: Tables, reqs: map<Rid, Pc>, r: Rid, g: Rid)
    requires RowsFit(d, reqs) && r in reqs && Off(reqs[r])
    ensures Access(r, g) !in d.tokens && Refresh(r, g) !in d.tokens
  {
  }

  /** What has been spent and read back belongs to a grant that is there to stay. */
  lemma WinSettles(tr: Trace, n: nat, cred: Cred, r: Rid)
    requires Run(tr) && n < |tr.states| && r in tr.states[n].reqs && tr.states[n].reqs[r].SpendCheck?
    requires tr.states[n].reqs[r].cred == cred && Bears(tr.states[n].working, cred, SpentBy(r))
    ensures Settled(tr.states[n], cred.Grant())
  {
    var s := tr.states[n];
    InvHolds(tr, n);
    AllGrounded(tr, n);
    assert SpenderFits(s.working, s.committed, r, s.reqs[r]);
    BearsGrounds(s.working, cred, r);
    BearsGrounds(s.committed, cred, r);
  }

  lemma BearsGrounds(d: Tables, cred: Cred, r: Rid)
    requires Grounded(d) && Bears(d, cred, SpentBy(r))
    ensures cred.Grant() in d.grants
  {
  }

  lemma IssueReads(w: Tables, r: Rid, g: Rid, now: Instant)
    requires g in w.grants
    ensures var d := w.grants[g].expires;
            Proceed(w, r, Issue(g), now).pc == IssueAccess(g, if now + 3600 < d then now + 3600 else d, d)
  {
  }

  lemma IssueAdds(w: Tables, r: Rid, g: Rid, until: Instant, deadline: Instant, now: Instant)
    requires g in w.grants
    ensures var e := Proceed(w, r, IssueAccess(g, until, deadline), now);
            e.pc == IssueRefresh(g, deadline) && Holds(e.db, Access(r, g), Token(until, Open))
    ensures var e := Proceed(w, r, IssueRefresh(g, deadline), now);
            e.pc == Issued(g) && Holds(e.db, Refresh(r, g), Token(deadline, Open))
  {
  }

  /** The pair is issued: the access token for an hour but not beyond the grant's
      deadline, the refresh token up to it, both unspent. */
  ghost predicate PairIssued(tr: Trace, r: Rid, p: Path, g: Rid)
    requires Run(tr) && Walks(tr, r, p)
  {
    && g in tr.states[p.read].working.grants
    && var now, deadline := tr.steps[p.read].now, tr.states[p.read].working.grants[g].expires;
       var until := if now + 3600 < deadline then now + 3600 else deadline;
       && tr.states[p.access].reqs[r] == IssueAccess(g, until, deadline)
       && tr.states[p.refresh].reqs[r] == IssueRefresh(g, deadline)
       && g in tr.states[p.access].working.grants && g in tr.states[p.refresh].working.grants
       && Holds(tr.states[p.access + 1].working, Access(r, g), Token(until, Open))
       && Holds(tr.states[p.refresh + 1].working, Refresh(r, g), Token(deadline, Open))
  }

  ghost predicate NoneIssued(tr: Trace, r: Rid, p: Path, g: Rid)
    requires Run(tr) && Walks(tr, r, p)
  {
    forall n: nat | p.decide < n < |tr.states| ::
      Access(r, g) !in tr.states[n].working.tokens && Refresh(r, g) !in tr.states[n].working.tokens
  }

  lemma IssuesPair(tr: Trace, r: Rid, p: Path, g: Rid)
    requires Run(tr) && Walks(tr, r, p) && tr.states[p.decide + 1].reqs[r] == Issue(g)
    requires Settled(tr.states[p.decide + 1], g)
    ensures PairIssued(tr, r, p, g)
  {
    GrantOnTheWay(tr, r, p, g);
    StillAt(tr, p.decide, p.decide + 1, p.read, r);
    var now, deadline := tr.steps[p.read].now, tr.states[p.read].working.grants[g].expires;
    var until := if now + 3600 < deadline then now + 3600 else deadline;
    Waits(tr, p.read, p.access, r);
    IssueReads(tr.states[p.read].working, r, g, now);
    InsertsAccess(tr, p.access, p.refresh, r, g, until, deadline);
    InsertsRefresh(tr, p.refresh, r, g, deadline);
  }

  lemma GrantOnTheWay(tr: Trace, r: Rid, p: Path, g: Rid)
    requires Run(tr) && Walks(tr, r, p) && Settled(tr.states[p.decide + 1], g)
    ensures g in tr.states[p.read].working.grants
    ensures g in tr.states[p.access].working.grants
    ensures g in tr.states[p.refresh].working.grants
  {
    SettledForGood(tr, p.decide + 1, p.read, g);
    SettledForGood(tr, p.read, p.access, g);
    SettledForGood(tr, p.access, p.refresh, g);
  }

  lemma InsertsAccess(tr: Trace, i: nat, j: nat, r: Rid, g: Rid, until: Instant, deadline: Instant)
    requires Run(tr) && NextAct(tr, i, j, r) && tr.states[i].reqs[r] == IssueAccess(g, until, deadline)
    requires g in tr.states[i].working.grants
    ensures tr.states[j].reqs[r] == IssueRefresh(g, deadline)
    ensures Holds(tr.states[i + 1].working, Access(r, g), Token(until, Open))
  {
    Waits(tr, i, j, r);
    ActLeaves(tr, i, r);
    IssueAdds(tr.states[i].working, r, g, until, deadline, tr.steps[i].now);
  }

  lemma InsertsRefresh(tr: Trace, i: nat, r: Rid, g: Rid, deadline: Instant)
    requires Run(tr) && ActsAt(tr, i, r) && tr.states[i].reqs[r] == IssueRefresh(g, deadline)
    requires g in tr.states[i].working.grants
    ensures Holds(tr.states[i + 1].working, Refresh(r, g), Token(deadline, Open))
  {
    ActLeaves(tr, i, r);
    IssueAdds(tr.states[i].working, r, g, deadline, deadline, tr.steps[i].now);
  }

  lemma ActLeaves(tr: Trace, i: nat, r: Rid)
    requires Run(tr) && ActsAt(tr, i, r)
    ensures tr.states[i + 1].working == Proceed(tr.states[i].working, r, tr.states[i].reqs[r], tr.steps[i].now).db
  {
    assert tr.states[i + 1] == Next(tr.states[i], tr.steps[i]);
  }

  // ---- Exchange of a code ----

  /** What the token endpoint compares with the transaction. */
  predicate Accepts(row: Txn, client: Client, redirect: Option<nat>, proof: nat, at: Instant) {
    && row.expires > at && row.terms.client == client && row.terms.challenge == proof
    && (redirect.None? || redirect.value == row.terms.redirect)
  }

  /** The code's row `t` is unspent at the UPDATE, its stamp is not undone before
      the commit, it is kept until the look-up, and it is accepted. */
  ghost predicate GoodCode(tr: Trace, p: Path, t: Rid, g: Rid, client: Client, redirect: Option<nat>, proof: nat,
                           at: Instant)
    requires p.spend < |tr.states| && p.check < |tr.states| && p.decide < |tr.states|
  {
    && HasCode(tr.states[p.spend].working, t, g) && tr.states[p.spend].working.txns[t].consumed.Open?
    && !UndoneBetween(tr, p.spend, p.commit)
    && HasCode(tr.states[p.check].working, t, g) && HasCode(tr.states[p.decide].working, t, g)
    && Accepts(tr.states[p.decide].working.txns[t], client, redirect, proof, at)
  }

  lemma CodeDecision(w: Tables, reqs: map<Rid, Pc>, r: Rid, g: Rid, client: Client, redirect: Option<nat>, proof: nat,
                     at: Instant, now: Instant)
    requires RowsFit(w, reqs)
    ensures var next := Proceed(w, r, Decide(Code(g), Exchange(client, redirect, proof, at), true), now).pc;
            if exists t :: HasCode(w, t, g) && Accepts(w.txns[t], client, redirect, proof, at)
            then next == Issue(g) else Off(next)
  {
    if t :| HasCode(w, t, g) && Accepts(w.txns[t], client, redirect, proof, at) {
      var u := CodeRow(w, g).value;
      assert TxnFits(reqs, t, w.txns[t]) && TxnFits(reqs, u, w.txns[u]);
    }
  }

  lemma OneCodeRow(tr: Trace, m: nat, n: nat, g: Rid, t: Rid, u: Rid)
    requires Run(tr) && m <= n < |tr.states|
    requires HasCode(tr.states[m].working, t, g) && HasCode(tr.states[n].working, u, g)
    ensures t == u
  {
    InvHolds(tr, m);
    InvHolds(tr, n);
    assert TxnFits(tr.states[m].reqs, t, tr.states[m].working.txns[t]);
    assert TxnFits(tr.states[n].reqs, u, tr.states[n].working.txns[u]);
    ParkedStays(tr, m, n, g);
  }

  /** An exchange issues its pair of tokens exactly when the code's row is unspent
      at the UPDATE, not undone before the commit, kept until it is looked up, not
      expired at arrival, and equal in client, redirect URI and verifier. */
  lemma ExchangeIssuesIff(tr: Trace, r: Rid, p: Path, g: Rid, client: Client, redirect: Option<nat>, proof: nat,
                          at: Instant)
    requires Run(tr) && Walks(tr, r, p)
    requires tr.states[p.spend].reqs[r] == Spend(Code(g), Exchange(client, redirect, proof, at))
    ensures if exists t :: GoodCode(tr, p, t, g, client, redirect, proof, at)
            then PairIssued(tr, r, p, g) else NoneIssued(tr, r, p, g)
  {
    var ask := Exchange(client, redirect, proof, at);
    WinsIff(tr, r, p, Code(g), ask);
    GoodCodeIff(tr, p, g, client, redirect, proof, at);
    InvHolds(tr, p.decide);
    var s := tr.states[p.decide];
    if Wins(tr, p, Code(g)) {
      CodeDecision(s.working, s.reqs, r, g, client, redirect, proof, at, tr.steps[p.decide].now);
      Waits(tr, p.decide, p.decide + 1, r);
    }
    Concludes(tr, r, p, g, Code(g), ask);
  }

  lemma GoodCodeIff(tr: Trace, p: Path, g: Rid, client: Client, redirect: Option<nat>, proof: nat, at: Instant)
    requires Run(tr) && p.spend <= p.check <= p.decide < |tr.states|
    ensures (exists t :: GoodCode(tr, p, t, g, client, redirect, proof, at)) <==>
            && Wins(tr, p, Code(g))
            && (exists t :: HasCode(tr.states[p.decide].working, t, g) &&
                            Accepts(tr.states[p.decide].working.txns[t], client, redirect, proof, at))
  {
    if Wins(tr, p, Code(g)) {
      var t :| HasCode(tr.states[p.spend].working, t, g) && tr.states[p.spend].working.txns[t].consumed.Open?;
      var u :| HasCode(tr.states[p.check].working, u, g);
      OneCodeRow(tr, p.spend, p.check, g, t, u);
      if v :| HasCode(tr.states[p.decide].working, v, g) &&
              Accepts(tr.states[p.decide].working.txns[v], client, redirect, proof, at) {
        OneCodeRow(tr, p.spend, p.decide, g, t, v);
        assert GoodCode(tr, p, t, g, client, redirect, proof, at);
      }
    }
  }

  /** What follows the decision. */
  lemma Concludes(tr: Trace, r: Rid, p: Path, g: Rid, cred: Cred, ask: Ask)
    requires Run(tr) && Walks(tr, r, p) && tr.states[p.spend].reqs[r] == Spend(cred, ask) && cred.Grant() == g
    requires tr.states[p.decide + 1].reqs[r] == Issue(g) ==> Wins(tr, p, cred)
    ensures tr.states[p.decide + 1].reqs[r] == Issue(g) ==> PairIssued(tr, r, p, g)
    ensures Off(tr.states[p.decide + 1].reqs[r]) ==> NoneIssued(tr, r, p, g)
  {
    if tr.states[p.decide + 1].reqs[r] == Issue(g) {
      ToTheCheck(tr, r, p, cred, ask);
      ReadBack(tr, r, p, cred, ask);
      WinSettles(tr, p.check, cred, r);
      SettledForGood(tr, p.check, p.decide + 1, g);
      IssuesPair(tr, r, p, g);
    }
    if Off(tr.states[p.decide + 1].reqs[r]) {
      Waits(tr, p.decide, p.decide + 1, r);
      forall n: nat | p.decide < n < |tr.states|
        ensures Access(r, g) !in tr.states[n].working.tokens && Refresh(r, g) !in tr.states[n].working.tokens
      {
        NothingIssued(tr, p.decide + 1, n, r, g);
      }
    }
  }

  // ---- Rotation of a refresh token ----

  /** The refresh token passes the look at it and its grant. */
  predicate Rotatable(d: Tables, cred: Cred, scopes: set<nat>, now: Instant) {
    && cred in d.tokens && d.tokens[cred].consumed.Open? && d.tokens[cred].expires > now
    && cred.Grant() in d.grants && d.grants[cred.Grant()].expires > now && !d.grants[cred.Grant()].revoked
    && d.grants[cred.Grant()].terms.client !in d.disabled && scopes <= d.grants[cred.Grant()].terms.scopes
  }

  lemma PresentedIff(w: Tables, r: Rid, cred: Cred, client: Client, scopes: set<nat>, now: Instant)
    requires cred.Refresh?
    ensures var next := Proceed(w, r, Present(cred, client, scopes), now).pc;
            if Rotatable(w, cred, scopes, now)
            then next == Spend(cred, Rotate(client, w.grants[cred.under].terms.client)) else Off(next)
  {
  }

  lemma RotationDecision(w: Tables, r: Rid, cred: Cred, client: Client, owner: Client, now: Instant)
    requires cred.Refresh?
    ensures var next := Proceed(w, r, Decide(cred, Rotate(client, owner), true), now).pc;
            if client == owner then next == Issue(cred.under) else Off(next)
  {
  }

  /** A rotation issues its pair exactly when the refresh token and its grant are
      kept, unspent, unexpired and not revoked, the client is not disabled and the
      scopes are no wider, when it is presented; when it is still unspent at the
      UPDATE, which is not undone before the commit; and when the client that asks
      is the grant's own. */
  lemma RotationIssuesIff(tr: Trace, r: Rid, present: nat, p: Path, cred: Cred, client: Client, scopes: set<nat>)
    requires Run(tr) && Walks(tr, r, p) && NextAct(tr, present, p.spend, r) && cred.Refresh?
    requires tr.states[present].reqs[r] == Present(cred, client, scopes)
    ensures var d := tr.states[present].working;
            if && Rotatable(d, cred, scopes, tr.steps[present].now)
               && cred in tr.states[p.spend].working.tokens
               && tr.states[p.spend].working.tokens[cred].consumed.Open?
               && !UndoneBetween(tr, p.spend, p.commit)
               && client == d.grants[cred.under].terms.client
            then PairIssued(tr, r, p, cred.under) else NoneIssued(tr, r, p, cred.under)
  {
    var d := tr.states[present].working;
    Waits(tr, present, p.spend, r);
    PresentedIff(d, r, cred, client, scopes, tr.steps[present].now);
    if Rotatable(d, cred, scopes, tr.steps[present].now) {
      RotationIssues(tr, r, p, cred, client, d.grants[cred.under].terms.client);
    } else {
      forall n: nat | p.decide < n < |tr.states|
        ensures Access(r, cred.under) !in tr.states[n].working.tokens
        ensures Refresh(r, cred.under) !in tr.states[n].working.tokens
      {
        NothingIssued(tr, p.spend, n, r, cred.under);
      }
    }
  }

  lemma RotationIssues(tr: Trace, r: Rid, p: Path, cred: Cred, client: Client, owner: Client)
    requires Run(tr) && Walks(tr, r, p) && cred.Refresh?
    requires tr.states[p.spend].reqs[r] == Spend(cred, Rotate(client, owner))
    ensures if Wins(tr, p, cred) && client == owner
            then PairIssued(tr, r, p, cred.under) else NoneIssued(tr, r, p, cred.under)
  {
    WinsIff(tr, r, p, cred, Rotate(client, owner));
    Waits(tr, p.decide, p.decide + 1, r);
    RotationDecision(tr.states[p.decide].working, r, cred, client, owner, tr.steps[p.decide].now);
    Concludes(tr, r, p, cred.under, cred, Rotate(client, owner));
  }
}

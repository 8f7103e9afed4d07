/** Replay and revocation: what ends a grant, for how long, and when a
    revocation on the shared connection is lost. */
module GrantRevocation {
  import opened Options
  import opened GrantTables
  import opened GrantInvariant
  import opened GrantRuns
  import opened GrantDecisions
  import Undo

  ghost predicate Revoked(d: Tables, g: Rid) {
    g in d.grants ==> d.grants[g].revoked
  }

  ghost predicate Live(d: Tables, g: Rid) {
    g in d.grants && !d.grants[g].revoked
  }

  /** No live row of `g` is left, pending or durable, and none can come back. */
  ghost predicate Dead(s: State, g: Rid) {
    && Revoked(s.working, g) && Revoked(s.committed, g)
    && g in s.reqs && (s.reqs[g].ApproveMint? || s.reqs[g].Minted?)
  }

  /** A grant row changes only by a revocation. */
  lemma GrantRow(w: Tables, r: Rid, pc: Pc, now: Instant, g: Rid)
    requires !(pc.ApproveGrant? && r == g)
    ensures var w' := Proceed(w, r, pc, now).db;
            && (g in w'.grants <==> g in w.grants)
            && (g in w.grants ==> w'.grants[g] == w.grants[g] || w'.grants[g] == w.grants[g].(revoked := true))
            && (g in w.grants && pc != Revoke(g) ==> w'.grants[g] == w.grants[g])
            && (g in w.grants && pc == Revoke(g) ==> w'.grants[g].revoked)
  {
  }

  lemma DeadStays(s: State, st: Step, g: Rid)
    requires Dead(s, g)
    ensures Dead(Next(s, st), g)
  {
    StepAdvances(s, st, g);
    if st.Act? && st.r in s.reqs {
      GrantRow(s.working, st.r, s.reqs[st.r], st.now, g);
      ActFollows(s.working, st.r, s.reqs[st.r], st.now);
    }
  }

  lemma {:induction false} DeadForGood(tr: Trace, n: nat, m: nat, g: Rid)
    requires Run(tr) && n <= m < |tr.states| && Dead(tr.states[n], g)
    ensures Dead(tr.states[m], g)
    decreases m
  {
    if n < m {
      DeadForGood(tr, n, m - 1, g);
      DeadStays(tr.states[m - 1], tr.steps[m - 1], g);
    }
  }

  /** Once a grant is dead no token under it ever verifies again, not even one
      that was being issued at the time. */
  lemma NothingVerifiesUnderADeadGrant(tr: Trace, n: nat, m: nat, g: Rid, cred: Cred, resource: nat, now: Instant)
    requires Run(tr) && n <= m < |tr.states| && Dead(tr.states[n], g) && cred.Grant() == g
    ensures Verify(tr.states[m].working, cred, resource, now).None?
  {
    DeadForGood(tr, n, m, g);
  }

  // ---- Replay ----

  /** The row that a second use of `cred` is recognised by. */
  ghost predicate IsKept(w: Tables, cred: Cred) {
    if cred.Code? then exists t :: HasCode(w, t, cred.approval) else cred in w.tokens && cred.under in w.grants
  }

  /** After a redemption of `cred` has succeeded, any other request that comes to
      decide on `cred` goes on to revoke the grant if the row is still kept, and
      never issues. */
  lemma ReplayRevokes(tr: Trace, n: nat, k: nat, cred: Cred, q: Rid, r: Rid)
    requires Run(tr) && WinsAt(tr, n, cred, q) && n < k && ActsAt(tr, k, r) && r != q && !cred.Access?
    requires var pc := tr.states[k].reqs[r]; (pc.Decide? || pc.Present?) && pc.cred == cred
    ensures !Issuing(tr.states[k + 1].reqs[r]) && !tr.states[k + 1].reqs[r].Spend?
    ensures IsKept(tr.states[k].working, cred) && (cred.Code? ==> tr.states[k].reqs[r].Decide?) ==>
              tr.states[k + 1].reqs[r] == Revoke(cred.Grant())
  {
    var s := tr.states[k];
    InvHolds(tr, k);
    SpentForGood(tr, n, k, cred, q);
    assert SpenderFits(s.working, s.committed, r, s.reqs[r]);
    assert tr.states[k + 1] == Next(s, tr.steps[k]);
    ReplayDecision(s.working, cred, q, r, s.reqs[r], tr.steps[k].now);
  }

  lemma ReplayDecision(w: Tables, cred: Cred, q: Rid, r: Rid, pc: Pc, now: Instant)
    requires Bound(w, cred, q) && r != q && (pc.Decide? || pc.Present?) && pc.cred == cred && !cred.Access?
    requires pc.Decide? && pc.spent ==> Bound(w, cred, r)
    ensures var next := Proceed(w, r, pc, now).pc;
            && !Issuing(next) && !next.Spend?
            && (IsKept(w, cred) && (cred.Code? ==> pc.Decide?) ==> next == Revoke(cred.Grant()))
  {
  }

  // ---- When a revocation lasts ----

  /** At step `l` somebody issues the UPDATE that revokes `g`. */
  predicate RevokesAt(tr: Trace, l: nat, g: Rid) {
    l < |tr.steps| && l < |tr.states| && tr.steps[l].Act? && tr.steps[l].r in tr.states[l].reqs &&
    tr.states[l].reqs[tr.steps[l].r] == Revoke(g)
  }

  /** The revocation at step `i` as state `j` shows it. */
  ghost predicate Silenced(tr: Trace, i: nat, j: nat, g: Rid)
    requires i < j <= |tr.steps| && j < |tr.states|
  {
    var s := tr.states[j];
    && IsMinted(s.reqs, g)
    && (!UndoneBetween(tr, i, j) ==>
          Revoked(s.working, g) && (CommittedBetween(tr, i, j) ==> Revoked(s.committed, g)))
  }

  lemma SilencedStep(tr: Trace, i: nat, j: nat, g: Rid)
    requires Run(tr) && i < j < |tr.steps| && Silenced(tr, i, j, g)
    ensures Silenced(tr, i, j + 1, g)
  {
    var s, st := tr.states[j], tr.steps[j];
    assert tr.states[j + 1] == Next(s, st);
    OneStepOn(tr, i, j);
    MintedStays(s, st, g);
    if st.Act? && st.r in s.reqs { GrantRow(s.working, st.r, s.reqs[st.r], st.now, g); }
  }

  lemma {:induction false} SilencedHolds(tr: Trace, i: nat, j: nat, g: Rid)
    requires Run(tr) && RevokesAt(tr, i, g) && IsMinted(tr.states[i].reqs, g) && i < j <= |tr.steps|
    ensures Silenced(tr, i, j, g)
    decreases j
  {
    if i + 1 < j {
      SilencedHolds(tr, i, j - 1, g);
      SilencedStep(tr, i, j - 1, g);
    } else {
      assert tr.states[i + 1] == Next(tr.states[i], tr.steps[i]);
      MintedStays(tr.states[i], tr.steps[i], g);
      GrantRow(tr.states[i].working, tr.steps[i].r, Revoke(g), tr.steps[i].now, g);
    }
  }

  /** The commit that follows a revocation which was not undone ends the grant,
      whoever else revokes it, or has revoked it before. */
  lemma CommittedRevocationKills(tr: Trace, i: nat, k: nat, g: Rid)
    requires Run(tr) && RevokesAt(tr, i, g) && IsMinted(tr.states[i].reqs, g)
    requires i < k < |tr.steps| && CommitsAt(tr, k) && !UndoneBetween(tr, i, k)
    ensures Dead(tr.states[k + 1], g)
  {
    SilencedHolds(tr, i, k, g);
    SilencedStep(tr, i, k, g);
    OneStepOn(tr, i, k);
  }

  // ---- Exactly when a grant is revoked ----

  /** The UPDATE at step `p` finds the grant. */
  predicate UpdatesAt(tr: Trace, p: nat, g: Rid) {
    RevokesAt(tr, p, g) && g in tr.states[p].working.grants
  }

  function Shown(d: Tables, g: Rid): Option<bool> {
    if g in d.grants then Some(d.grants[g].revoked) else None
  }

  /** "The grant is revoked", along a run. */
  function RevocationStory(tr: Trace, g: Rid): (st: Undo.Story)
    requires |tr.states| == |tr.steps| + 1
    ensures st.Shaped() && st.kinds == Kinds(tr)
    ensures forall i: nat | i < |tr.steps| :: st.sets[i] == UpdatesAt(tr, i, g)
    ensures forall i: nat | i < |tr.states| ::
              st.pending[i] == Shown(tr.states[i].working, g) && st.durable[i] == Shown(tr.states[i].committed, g)
  {
    Undo.Story(
      Kinds(tr),
      seq(|tr.steps|, i requires 0 <= i < |tr.steps| => UpdatesAt(tr, i, g)),
      seq(|tr.states|, i requires 0 <= i < |tr.states| => Shown(tr.states[i].working, g)),
      seq(|tr.states|, i requires 0 <= i < |tr.states| => Shown(tr.states[i].committed, g)))
  }

  predicate Revokes(s: State, st: Step, g: Rid) {
    st.Act? && st.r in s.reqs && s.reqs[st.r] == Revoke(g) && g in s.working.grants
  }

  predicate Records(s: State, st: Step, g: Rid) {
    st.Act? && st.r == g && g in s.reqs && s.reqs[g].ApproveGrant?
  }

  /** What one step does to the revocation of a grant. */
  lemma StepShows(s: State, st: Step, g: Rid)
    ensures var s' := Next(s, st);
            && (!(Records(s, st, g) && g in s.working.grants) ==>
                  Undo.ValuesMove(KindOf(s, st), Revokes(s, st, g), Shown(s.working, g), Shown(s'.working, g),
                                  Shown(s.committed, g), Shown(s'.committed, g)))
            && (!KindOf(s, st).RollsBack? && g !in s.working.grants && g in s'.working.grants ==> Records(s, st, g))
  {
    if st.Act? && st.r in s.reqs && !Records(s, st, g) { GrantRow(s.working, st.r, s.reqs[st.r], st.now, g); }
  }

  lemma StoryMoves(tr: Trace, g: Rid, j: nat)
    requires Run(tr) && j < |tr.steps|
    ensures Undo.Moves(RevocationStory(tr, g), j)
  {
    var s, s', st := tr.states[j], tr.states[j + 1], tr.steps[j];
    StepShows(s, st, g);
    if Records(s, st, g) { NothingRevokedYet(tr, j, g); }
    Undo.MovesByValues(RevocationStory(tr, g), j, KindOf(s, st), Revokes(s, st, g),
                       Shown(s.working, g), Shown(s'.working, g), Shown(s.committed, g), Shown(s'.committed, g));
  }

  lemma NothingRevokedYet(tr: Trace, j: nat, g: Rid)
    requires Run(tr) && j < |tr.steps| && g in tr.states[j].reqs && tr.states[j].reqs[g].ApproveGrant?
    ensures g !in tr.states[j].working.grants
    ensures forall p: nat | p <= j :: !UpdatesAt(tr, p, g)
  {
    forall p: nat | p <= j ensures g !in tr.states[p].working.grants {
      InvHolds(tr, p);
      if g in tr.states[p].working.grants {
        assert GrantFits(tr.states[p].reqs, g, tr.states[p].working.grants[g]);
        RankGrows(tr, p, j, g);
      }
    }
  }

  lemma StoryIsCoherent(tr: Trace, g: Rid)
    requires Run(tr)
    ensures Undo.Coherent(RevocationStory(tr, g))
  {
    forall j: nat | j < |tr.steps| ensures Undo.Moves(RevocationStory(tr, g), j) { StoryMoves(tr, g, j); }
  }

  ghost predicate Stands(tr: Trace, p: nat, j: nat, g: Rid) {
    p < j && UpdatesAt(tr, p, g) && !UndoneBetween(tr, p, j)
  }

  ghost predicate OneStands(tr: Trace, j: nat, g: Rid) {
    exists p: nat :: Stands(tr, p, j, g)
  }

  ghost predicate OneStandsForGood(tr: Trace, j: nat, g: Rid) {
    exists p: nat :: Stands(tr, p, j, g) && CommittedBetween(tr, p, j)
  }

  /** In every run, a grant is revoked exactly when some revocation of it stands:
      its UPDATE found the row, and no rollback came before the first commit after
      it. It is durably revoked exactly when one stands and was committed. */
  lemma RevokedIffOneStands(tr: Trace, j: nat, g: Rid)
    requires Run(tr) && j < |tr.states|
    ensures var d := tr.states[j].working; g in d.grants ==> (d.grants[g].revoked <==> OneStands(tr, j, g))
    ensures var d := tr.states[j].committed; g in d.grants ==> (d.grants[g].revoked <==> OneStandsForGood(tr, j, g))
  {
    var story := RevocationStory(tr, g);
    StoryIsCoherent(tr, g);
    Undo.HoldsIffOneStands(story, j);
    forall p: nat
      ensures Undo.Stands(story, p, j) <==> Stands(tr, p, j, g)
      ensures Undo.StandsForGood(story, p, j) <==> Stands(tr, p, j, g) && CommittedBetween(tr, p, j)
    {
    }
    if Undo.OneStands(story, j) { var p: nat :| Undo.Stands(story, p, j); assert Stands(tr, p, j, g); }
    if OneStands(tr, j, g) { var p: nat :| Stands(tr, p, j, g); assert Undo.Stands(story, p, j); }
    if Undo.OneStandsForGood(story, j) { var p: nat :| Undo.StandsForGood(story, p, j); assert Stands(tr, p, j, g); }
    if OneStandsForGood(tr, j, g) {
      var p: nat :| Stands(tr, p, j, g) && CommittedBetween(tr, p, j);
      assert Undo.StandsForGood(story, p, j);
    }
  }

  /** What the commit of a revocation leaves: the grant is dead exactly when some
      revocation stands at that moment (or its row is gone with a rollback), this
      one if it was not undone, or somebody else's. */
  lemma RevocationLasts(tr: Trace, i: nat, k: nat, g: Rid)
    requires Run(tr) && i < k < |tr.steps| && UpdatesAt(tr, i, g) && CommitsAt(tr, k)
    ensures Dead(tr.states[k + 1], g) <==>
            g !in tr.states[k].working.grants || OneStands(tr, k, g)
    ensures Stands(tr, i, k, g) <==> !UndoneBetween(tr, i, k)
  {
    var s := tr.states[k];
    assert tr.states[k + 1] == Next(s, tr.steps[k]);
    RevokedIffOneStands(tr, k, g);
    InvHolds(tr, i);
    assert GrantFits(tr.states[i].reqs, g, tr.states[i].working.grants[g]);
    RecordedStays(tr, i, k + 1, g);
    CommitLeavesGrants(s, tr.steps[k], g);
  }

  lemma CommitLeavesGrants(s: State, st: Step, g: Rid)
    requires KindOf(s, st).Commits?
    ensures Next(s, st).working.grants == s.working.grants && Next(s, st).committed.grants == s.working.grants
  {
  }

  predicate Recorded(s: State, g: Rid) {
    g in s.reqs && (s.reqs[g].ApproveMint? || s.reqs[g].Minted?)
  }

  lemma {:induction false} RecordedStays(tr: Trace, m: nat, n: nat, g: Rid)
    requires Run(tr) && m <= n < |tr.states| && Recorded(tr.states[m], g)
    ensures Recorded(tr.states[n], g)
    decreases n
  {
    if m < n {
      RecordedStays(tr, m, n - 1, g);
      RecordedOneOn(tr.states[n - 1], tr.steps[n - 1], g);
    }
  }

  lemma RecordedOneOn(s: State, st: Step, g: Rid)
    requires Recorded(s, g)
    ensures Recorded(Next(s, st), g)
  {
    StepAdvances(s, st, g);
    if st.Act? && st.r == g { ActFollows(s.working, g, s.reqs[g], st.now); }
  }

  // ---- Replay, from the second use to the end of the grant ----

  /** A replay that is not undone ends the grant: a second use of a credential
      that was redeemed, found out at the first look or after a lost race, whether
      or not the grant is live and whoever else revokes it meanwhile. Whatever was
      or is being issued under it, no token verifies from the commit on. */
  lemma ReplayEndsTheGrant(tr: Trace, n: nat, d: nat, i: nat, k: nat, m: nat, cred: Cred, q: Rid, r: Rid,
                           token: Cred, resource: nat, now: Instant)
    requires Run(tr) && WinsAt(tr, n, cred, q) && n < d && ActsAt(tr, d, r) && r != q && !cred.Access?
    requires var pc := tr.states[d].reqs[r];
             (pc.Decide? || (pc.Present? && !cred.Code?)) && pc.cred == cred && IsKept(tr.states[d].working, cred)
    requires d < i < k < m < |tr.states| && ActsAt(tr, i, r) && tr.states[i].reqs[r].Revoke?
    requires ActsAt(tr, k, r) && tr.states[k].reqs[r].RevokeCommit? && !UndoneBetween(tr, i, k)
    requires token.Grant() == cred.Grant()
    ensures Verify(tr.states[m].working, token, resource, now).None?
  {
    ReplayRevokes(tr, n, d, cred, q, r);
    SameRankSamePc(tr, d + 1, i, r);
    SpentForGood(tr, n, i, cred, q);
    InvHolds(tr, i);
    SpentIsMinted(tr.states[i], cred, q);
    CommittedRevocationKills(tr, i, k, cred.Grant());
    NothingVerifiesUnderADeadGrant(tr, k + 1, m, cred.Grant(), token, resource, now);
  }

  lemma SpentIsMinted(s: State, cred: Cred, q: Rid)
    requires RowsFit(s.working, s.reqs) && Spent(s, cred, q)
    ensures IsMinted(s.reqs, cred.Grant())
  {
    if !cred.Code? { assert TokenFits(s.reqs, cred, s.working.tokens[cred]); }
  }

  lemma {:induction false} SameRankSamePc(tr: Trace, m: nat, n: nat, r: Rid)
    requires Run(tr) && m <= n < |tr.states| && r in tr.states[m].reqs && r in tr.states[n].reqs
    requires Rank(tr.states[m].reqs[r]) == Rank(tr.states[n].reqs[r])
    ensures tr.states[n].reqs[r] == tr.states[m].reqs[r]
    decreases n
  {
    if m < n {
      RankGrows(tr, m, n - 1, r);
      StepAdvances(tr.states[n - 1], tr.steps[n - 1], r);
      SameRankSamePc(tr, m, n - 1, r);
    }
  }

  // ---- What the missing read-backs cost ----

  const TERMS := Terms(1, 2, 3, {4}, 5)

  /** Request 0 parks a transaction, request 1 arms it, and all is committed. */
  lemma ArmedRun(row: Txn) returns (tr: Trace)
    requires row == Txn(TERMS, Some(1), false, Open, None, 600)
    ensures Run(tr) && |tr.steps| == 5
    ensures var d := NOTHING.(txns := map[0 := row]);
            tr.states[5] == State(d, d, map[0 := Parked(TERMS), 1 := Done])
  {
    var d0 := NOTHING.(txns := map[0 := row.(nonce := None)]);
    var d1 := NOTHING.(txns := map[0 := row]);
    tr := Trace([START], []);
    tr := Then(tr, Begin(0, Authorize(TERMS)), State(NOTHING, NOTHING, map[0 := Authorize(TERMS)]));
    tr := Then(tr, Act(0, 0), State(d0, NOTHING, map[0 := Parked(TERMS)]));
    tr := Then(tr, Begin(1, Arm(0)), State(d0, NOTHING, map[0 := Parked(TERMS), 1 := Arm(0)]));
    tr := Then(tr, Act(1, 0), State(d1, NOTHING, map[0 := Parked(TERMS), 1 := Done]));
    tr := Then(tr, Commit, State(d1, d1, map[0 := Parked(TERMS), 1 := Done]));
  }

  /** A denial that was answered with success can be lost: its stamp is rolled
      back, and the same nonce then approves the transaction. */
  lemma DenialCanBeLost() returns (tr: Trace, n: nat, m: nat)
    ensures Run(tr) && n < m && ApprovedAt(tr, m, 3, 0)
    ensures ActsAt(tr, n, 2) && tr.states[n].reqs[2] == Deny(0, 1)
    ensures 0 in tr.states[n + 1].working.txns && tr.states[n + 1].working.txns[0].consumed.Denied?
  {
    var row := Txn(TERMS, Some(1), false, Open, None, 600);
    var d, denied := NOTHING.(txns := map[0 := row]), NOTHING.(txns := map[0 := row.(consumed := Denied)]);
    var reqs := map[0 := Parked(TERMS), 1 := Done];
    tr := ArmedRun(row);
    tr := Then(tr, Begin(2, Deny(0, 1)), State(d, d, reqs[2 := Deny(0, 1)]));
    tr := Then(tr, Act(2, 0), State(denied, d, reqs[2 := Done]));
    tr := Then(tr, Rollback, State(d, d, reqs[2 := Done]));
    tr := Then(tr, Begin(3, Approve(0, 1)), State(d, d, reqs[2 := Done][3 := Approve(0, 1)]));
    n, m := 6, 9;
    tr := Then(tr, Act(3, 0), Next(tr.states[9], Act(3, 0)));
  }

  /** A revocation can be lost the same way: the request has updated the row and
      ends as usual, and the grant is live. */
  lemma RevocationCanBeLost() returns (tr: Trace, i: nat, k: nat)
    ensures Run(tr) && i < k && UpdatesAt(tr, i, 2) && tr.steps[i].r == 3
    ensures ActsAt(tr, k, 3) && tr.states[k].reqs[3] == RevokeCommit(2) && UndoneBetween(tr, i, k)
    ensures Live(tr.states[k + 1].working, 2) && Live(tr.states[k + 1].committed, 2)
  {
    var row := Txn(TERMS, Some(1), false, Open, None, 600);
    var grant := Grant(TERMS, GRANT_TTL, false);
    var minted := Tables(map[0 := row.(approved := true, code := Some(2))], map[2 := grant], map[], {});
    var revoked := minted.(grants := map[2 := grant.(revoked := true)]);
    tr := MintedRun(row, grant, minted);
    var reqs := map[0 := Parked(TERMS), 1 := Done, 2 := Minted(0, TERMS, GRANT_TTL)];
    tr := Then(tr, Begin(3, Revoke(2)), State(minted, minted, reqs[3 := Revoke(2)]));
    tr := Then(tr, Act(3, 1), State(revoked, minted, reqs[3 := RevokeCommit(2)]));
    tr := Then(tr, Rollback, State(minted, minted, reqs[3 := RevokeCommit(2)]));
    tr := Then(tr, Act(3, 1), State(minted, minted, reqs[3 := Done]));
    i, k := 12, 14;
    assert tr.steps[13].Rollback? && !CommittedBetween(tr, i, 13);
  }

  /** Request 2 approves the transaction; all is committed. */
  lemma MintedRun(row: Txn, grant: Grant, minted: Tables) returns (tr: Trace)
    requires row == Txn(TERMS, Some(1), false, Open, None, 600) && grant == Grant(TERMS, GRANT_TTL, false)
    requires minted == Tables(map[0 := row.(approved := true, code := Some(2))], map[2 := grant], map[], {})
    ensures Run(tr) && |tr.steps| == 11
    ensures tr.states[11] == State(minted, minted, map[0 := Parked(TERMS), 1 := Done, 2 := Minted(0, TERMS, GRANT_TTL)])
  {
    var granted := minted.(txns := map[0 := row.(approved := true)]);
    var reqs := map[0 := Parked(TERMS), 1 := Done];
    var d := NOTHING.(txns := map[0 := row]);
    tr := GrantedRun(row, grant, granted);
    tr := Then(tr, Act(2, 0), State(minted, d, reqs[2 := Minted(0, TERMS, GRANT_TTL)]));
    tr := Then(tr, Commit, State(minted, minted, reqs[2 := Minted(0, TERMS, GRANT_TTL)]));
  }

  lemma GrantedRun(row: Txn, grant: Grant, granted: Tables) returns (tr: Trace)
    requires row == Txn(TERMS, Some(1), false, Open, None, 600) && grant == Grant(TERMS, GRANT_TTL, false)
    requires granted == Tables(map[0 := row.(approved := true)], map[2 := grant], map[], {})
    ensures Run(tr) && |tr.steps| == 9
    ensures tr.states[9] == State(granted, NOTHING.(txns := map[0 := row]),
                                  map[0 := Parked(TERMS), 1 := Done, 2 := ApproveMint(0, TERMS, 0, GRANT_TTL)])
  {
    var d := NOTHING.(txns := map[0 := row]);
    var approved := granted.(grants := map[]);
    var reqs := map[0 := Parked(TERMS), 1 := Done];
    tr := ArmedRun(row);
    tr := Then(tr, Begin(2, Approve(0, 1)), State(d, d, reqs[2 := Approve(0, 1)]));
    tr := Then(tr, Act(2, 0), State(approved, d, reqs[2 := ApproveRead(0, 0)]));
    tr := Then(tr, Act(2, 0), State(approved, d, reqs[2 := ApproveGrant(0, TERMS, 0)]));
    tr := Then(tr, Act(2, 0), State(granted, d, reqs[2 := ApproveMint(0, TERMS, 0, GRANT_TTL)]));
  }
}

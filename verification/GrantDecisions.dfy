/** The administrator's decision: who approved and who denied a transaction, and
    when a denial lasts. */
module GrantDecisions {
  import opened Options
  import opened GrantTables
  import opened GrantInvariant
  import opened GrantRuns
  import Undo

  /** At step `m` request `a` approves `t`, undecided, with its latest nonce. */
  predicate ApprovedAt(tr: Trace, m: nat, a: Rid, t: Rid) {
    && ActsAt(tr, m, a) && tr.states[m].reqs[a].Approve? && tr.states[m].reqs[a].txn == t
    && t in tr.states[m].working.txns && tr.states[m].working.txns[t].Undecided()
    && tr.states[m].working.txns[t].nonce == Some(tr.states[m].reqs[a].nonce)
  }

  /** At step `m` request `r` denies `t`: its UPDATE matches the row. */
  predicate DeniedAt(tr: Trace, m: nat, r: Rid, t: Rid) {
    && ActsAt(tr, m, r) && tr.states[m].reqs[r].Deny? && tr.states[m].reqs[r].txn == t
    && t in tr.states[m].working.txns && tr.states[m].working.txns[t].Undecided()
    && tr.states[m].working.txns[t].nonce == Some(tr.states[m].reqs[r].nonce)
  }

  predicate RowDenied(d: Tables, t: Rid) {
    t in d.txns ==> d.txns[t].consumed.Denied?
  }

  // ---- Exactly when a transaction is denied ----

  function Shown(d: Tables, t: Rid): Option<bool> {
    if t in d.txns then Some(d.txns[t].consumed.Denied?) else None
  }

  /** This step is a denial of `t` that matches. */
  predicate Denies(s: State, st: Step, t: Rid) {
    && st.Act? && st.r in s.reqs && s.reqs[st.r].Deny? && s.reqs[st.r].txn == t
    && t in s.working.txns && s.working.txns[t].Undecided()
    && s.working.txns[t].nonce == Some(s.reqs[st.r].nonce)
  }

  predicate DenialAt(tr: Trace, p: nat, t: Rid) {
    p < |tr.steps| && p < |tr.states| && Denies(tr.states[p], tr.steps[p], t)
  }

  /** This step parks `t`. */
  predicate Parks(s: State, st: Step, t: Rid) {
    st.Act? && st.r == t && t in s.reqs && s.reqs[t].Authorize?
  }

  /** Only a denial makes a row denied. */
  lemma ConsentShows(w: Tables, r: Rid, pc: Pc, now: Instant, t: Rid)
    requires IsConsent(pc) && !(pc.Authorize? && r == t)
    ensures var w' := Consent(w, r, pc, now).db;
            var denies := pc.Deny? && pc.txn == t && t in w.txns && w.txns[t].Undecided() &&
                          w.txns[t].nonce == Some(pc.nonce);
            Shown(w', t) == if t in w.txns then Some(w.txns[t].consumed.Denied? || denies) else None
  {
  }

  lemma RedeemShows(w: Tables, r: Rid, pc: Pc, now: Instant, t: Rid)
    requires !IsConsent(pc)
    ensures Shown(Redeem(w, r, pc, now).db, t) == Shown(w, t)
  {
  }

  lemma StepShows(s: State, st: Step, t: Rid)
    ensures var s' := Next(s, st);
            && (!(Parks(s, st, t) && t in s.working.txns) ==>
                  Undo.ValuesMove(KindOf(s, st), Denies(s, st, t), Shown(s.working, t), Shown(s'.working, t),
                                  Shown(s.committed, t), Shown(s'.committed, t)))
            && (!KindOf(s, st).RollsBack? && t !in s.working.txns && t in s'.working.txns ==> Parks(s, st, t))
  {
    if st.Act? && st.r in s.reqs && !Parks(s, st, t) {
      if IsConsent(s.reqs[st.r]) {
        ConsentShows(s.working, st.r, s.reqs[st.r], st.now, t);
      } else {
        RedeemShows(s.working, st.r, s.reqs[st.r], st.now, t);
      }
    }
  }

  /** "The transaction is denied", along a run. */
  function DenialStory(tr: Trace, t: Rid): (st: Undo.Story)
    requires |tr.states| == |tr.steps| + 1
    ensures st.Shaped() && st.kinds == Kinds(tr)
    ensures forall i: nat | i < |tr.steps| :: st.sets[i] == DenialAt(tr, i, t)
    ensures forall i: nat | i < |tr.states| ::
              st.pending[i] == Shown(tr.states[i].working, t) && st.durable[i] == Shown(tr.states[i].committed, t)
  {
    Undo.Story(
      Kinds(tr),
      seq(|tr.steps|, i requires 0 <= i < |tr.steps| => DenialAt(tr, i, t)),
      seq(|tr.states|, i requires 0 <= i < |tr.states| => Shown(tr.states[i].working, t)),
      seq(|tr.states|, i requires 0 <= i < |tr.states| => Shown(tr.states[i].committed, t)))
  }

  lemma NotParkedYet(tr: Trace, j: nat, t: Rid)
    requires Run(tr) && j < |tr.steps| && t in tr.states[j].reqs && tr.states[j].reqs[t].Authorize?
    ensures forall p: nat | p <= j :: t !in tr.states[p].working.txns && !DenialAt(tr, p, t)
  {
    forall p: nat | p <= j ensures t !in tr.states[p].working.txns {
      InvHolds(tr, p);
      if t in tr.states[p].working.txns {
        assert TxnFits(tr.states[p].reqs, t, tr.states[p].working.txns[t]);
        RankGrows(tr, p, j, t);
      }
    }
  }

  lemma StoryMoves(tr: Trace, t: Rid, j: nat)
    requires Run(tr) && j < |tr.steps|
    ensures Undo.Moves(DenialStory(tr, t), j)
  {
    var s, s', st := tr.states[j], tr.states[j + 1], tr.steps[j];
    StepShows(s, st, t);
    if Parks(s, st, t) { NotParkedYet(tr, j, t); }
    Undo.MovesByValues(DenialStory(tr, t), j, KindOf(s, st), Denies(s, st, t),
                       Shown(s.working, t), Shown(s'.working, t), Shown(s.committed, t), Shown(s'.committed, t));
  }

  ghost predicate DenialStands(tr: Trace, p: nat, j: nat, t: Rid) {
    p < j && DenialAt(tr, p, t) && !UndoneBetween(tr, p, j)
  }

  /** In every run, a transaction whose row is kept is denied exactly when some
      denial of it stands, and durably exactly when one stands and was committed. */
  lemma DeniedIffOneStands(tr: Trace, j: nat, t: Rid)
    requires Run(tr) && j < |tr.states|
    ensures var d := tr.states[j].working;
            t in d.txns ==> (d.txns[t].consumed.Denied? <==> exists p: nat :: DenialStands(tr, p, j, t))
    ensures var d := tr.states[j].committed;
            t in d.txns ==> (d.txns[t].consumed.Denied? <==>
                               exists p: nat :: DenialStands(tr, p, j, t) && CommittedBetween(tr, p, j))
  {
    var story := DenialStory(tr, t);
    forall n: nat | n < |tr.steps| ensures Undo.Moves(story, n) { StoryMoves(tr, t, n); }
    Undo.HoldsIffOneStands(story, j);
    if Undo.OneStands(story, j) { var p: nat :| Undo.Stands(story, p, j); assert DenialStands(tr, p, j, t); }
    if p: nat :| DenialStands(tr, p, j, t) { assert Undo.Stands(story, p, j); }
    if Undo.OneStandsForGood(story, j) {
      var p: nat :| Undo.StandsForGood(story, p, j);
      assert DenialStands(tr, p, j, t) && CommittedBetween(tr, p, j);
    }
    if p: nat :| DenialStands(tr, p, j, t) && CommittedBetween(tr, p, j) { assert Undo.StandsForGood(story, p, j); }
  }

  /** A denial lasts exactly as long as no rollback undoes its UPDATE before
      something commits it. While it lasts the row is denied wherever it is kept
      and nobody approves the transaction; and the rollback that undoes it puts
      everything pending back to what was durable when it was made. */
  lemma DenialLasts(tr: Trace, i: nat, j: nat, r: Rid, t: Rid)
    requires Run(tr) && DeniedAt(tr, i, r, t) && i < j <= |tr.steps|
    ensures !UndoneBetween(tr, i, j) ==>
              && RowDenied(tr.states[j].working, t)
              && (CommittedBetween(tr, i, j) ==> RowDenied(tr.states[j].committed, t))
              && forall a :: !ApprovedAt(tr, j, a, t)
    ensures j < |tr.steps| && tr.steps[j].Rollback? && !CommittedBetween(tr, i, j) ==>
              tr.states[j + 1].working == tr.states[i].committed
  {
    DeniedIffOneStands(tr, j, t);
    if !UndoneBetween(tr, i, j) { assert DenialStands(tr, i, j, t); }
    if j < |tr.steps| && tr.steps[j].Rollback? && !CommittedBetween(tr, i, j) {
      DurableUntilCommit(tr, i, j);
      assert tr.states[j + 1] == Next(tr.states[j], tr.steps[j]);
    }
  }
}

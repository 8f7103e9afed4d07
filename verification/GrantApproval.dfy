/** What an approval comes to at the end of its steps: a grant, and a code recorded
    on the transaction. */
module GrantApproval {
  import opened Options
  import opened GrantTables
  import opened GrantInvariant
  import opened GrantRuns
  import opened GrantIssuance

  /** The acts of an approval: the UPDATE with the nonce, the look at the row, the
      INSERT of the grant, and the UPDATE that records the code. */
  datatype Approval = Approval(approve: nat, read: nat, grant: nat, mint: nat)

  ghost predicate Approves(tr: Trace, a: Rid, p: Approval) {
    NextAct(tr, p.approve, p.read, a) && NextAct(tr, p.read, p.grant, a) && NextAct(tr, p.grant, p.mint, a)
  }

  predicate Decidable(d: Tables, t: Rid, nonce: Rid) {
    && t in d.txns && !d.txns[t].approved && d.txns[t].consumed.Open? && d.txns[t].nonce == Some(nonce)
  }

  predicate Valid(d: Tables, t: Rid, now: Instant) {
    t in d.txns && d.txns[t].consumed.Open? && now < d.txns[t].expires
  }

  lemma ApprovalSteps(w: Tables, a: Rid, t: Rid, nonce: Rid, terms: Terms, at: Instant, now: Instant)
    ensures Proceed(w, a, Approve(t, nonce), now).pc == if Decidable(w, t, nonce) then ApproveRead(t, now) else Done
    ensures Proceed(w, a, ApproveRead(t, at), now).pc ==
            if Valid(w, t, now) then ApproveGrant(t, w.txns[t].terms, at) else Done
    ensures var e := Proceed(w, a, ApproveGrant(t, terms, at), now);
            && e.pc == ApproveMint(t, terms, at, now + 2592000)
            && a in e.db.grants && e.db.grants[a] == Grant(terms, now + 2592000, false)
  {
  }

  lemma MintStep(w: Tables, reqs: map<Rid, Pc>, a: Rid, t: Rid, terms: Terms, at: Instant, deadline: Instant,
                 now: Instant)
    requires RowsFit(w, reqs) && a in reqs && reqs[a] == ApproveMint(t, terms, at, deadline)
    ensures var w' := Proceed(w, a, reqs[a], now).db;
            && (HasCode(w', t, a) <==> t in w.txns && a in w.grants)
            && (HasCode(w', t, a) ==> w'.txns[t].expires == at + 600)
  {
    if t in w.txns { assert TxnFits(reqs, t, w.txns[t]); }
  }

  lemma DoneStays(tr: Trace, m: nat, n: nat, a: Rid, t: Rid)
    requires Run(tr) && m <= n < |tr.states| && a in tr.states[m].reqs && tr.states[m].reqs[a].Done?
    ensures a in tr.states[n].reqs && tr.states[n].reqs[a].Done? && !HasCode(tr.states[n].working, t, a)
  {
    ParkedStays(tr, m, n, a);
    InvHolds(tr, n);
    UnmintedHasNone(tr.states[n].working, tr.states[n].reqs, a, t);
  }

  lemma UnmintedHasNone(d: Tables, reqs: map<Rid, Pc>, a: Rid, t: Rid)
    requires RowsFit(d, reqs) && !IsMinted(reqs, a)
    ensures !HasCode(d, t, a)
  {
  }

  /** An approval ends with its code on the transaction exactly when the row was
      undecided and had the nonce at the UPDATE, was open and unexpired when it was
      read, and row and grant are there when the code is recorded. The code is good
      for ten minutes from the UPDATE; the grant has the transaction's terms, and
      thirty days. */
  lemma ApprovalMintsIff(tr: Trace, a: Rid, p: Approval, t: Rid, nonce: Rid)
    requires Run(tr) && Approves(tr, a, p) && tr.states[p.approve].reqs[a] == Approve(t, nonce)
    ensures HasCode(tr.states[p.mint + 1].working, t, a) <==>
            && Decidable(tr.states[p.approve].working, t, nonce)
            && Valid(tr.states[p.read].working, t, tr.steps[p.read].now)
            && t in tr.states[p.mint].working.txns && a in tr.states[p.mint].working.grants
    ensures HasCode(tr.states[p.mint + 1].working, t, a) ==>
              && tr.states[p.mint + 1].working.txns[t].expires == tr.steps[p.approve].now + 600
              && a in tr.states[p.grant + 1].working.grants
              && tr.states[p.grant + 1].working.grants[a] ==
                 Grant(tr.states[p.read].working.txns[t].terms, tr.steps[p.grant].now + 2592000, false)
  {
    Waits(tr, p.approve, p.read, a);
    Waits(tr, p.read, p.grant, a);
    ApprovalSteps(tr.states[p.approve].working, a, t, nonce, Terms(0, 0, 0, {}, 0), 0, tr.steps[p.approve].now);
    if !Decidable(tr.states[p.approve].working, t, nonce) {
      DoneStays(tr, p.read, p.mint + 1, a, t);
    } else {
      var at := tr.steps[p.approve].now;
      ApprovalSteps(tr.states[p.read].working, a, t, nonce, Terms(0, 0, 0, {}, 0), at, tr.steps[p.read].now);
      if !Valid(tr.states[p.read].working, t, tr.steps[p.read].now) {
        DoneStays(tr, p.grant, p.mint + 1, a, t);
      } else {
        GrantsAndMints(tr, a, p, t, tr.states[p.read].working.txns[t].terms, at);
      }
    }
  }

  lemma GrantsAndMints(tr: Trace, a: Rid, p: Approval, t: Rid, terms: Terms, at: Instant)
    requires Run(tr) && Approves(tr, a, p) && tr.states[p.grant].reqs[a] == ApproveGrant(t, terms, at)
    ensures var w := tr.states[p.mint + 1].working;
            && (HasCode(w, t, a) <==> t in tr.states[p.mint].working.txns && a in tr.states[p.mint].working.grants)
            && (HasCode(w, t, a) ==> w.txns[t].expires == at + 600)
    ensures var d := tr.states[p.grant + 1].working;
            a in d.grants && d.grants[a] == Grant(terms, tr.steps[p.grant].now + 2592000, false)
  {
    Waits(tr, p.grant, p.mint, a);
    ApprovalSteps(tr.states[p.grant].working, a, t, 0, terms, at, tr.steps[p.grant].now);
    InvHolds(tr, p.mint);
    ActLeaves(tr, p.grant, a);
    ActLeaves(tr, p.mint, a);
    MintStep(tr.states[p.mint].working, tr.states[p.mint].reqs, a, t, terms, at, tr.steps[p.grant].now + 2592000,
             tr.steps[p.mint].now);
  }

  /** A purge drops exactly the transactions that have expired, and with them their
      codes; grants and tokens stay. */
  lemma PurgeDropsTheExpired(s: State, now: Instant, t: Rid)
    ensures var w, w' := s.working, Next(s, Purge(now)).working;
            && (t in w'.txns <==> t in w.txns && !(w.txns[t].expires < now))
            && (t in w'.txns ==> w'.txns[t] == w.txns[t])
            && (forall g :: HasCode(w', t, g) <==> HasCode(w, t, g) && !(w.txns[t].expires < now))
            && w'.grants == w.grants && w'.tokens == w.tokens && w'.disabled == w.disabled
  {
  }
}

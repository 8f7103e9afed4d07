/** Consent confinement: a principal that a token stands for traces back to one
    transaction, decided with its latest nonce and exchanged by its own client. */
module GrantConsent {
  import opened Options
  import opened GrantTables
  import opened GrantInvariant
  import opened GrantRuns
  import opened GrantDecisions
  import Undo

  /** Issuing under `g`, or past it. */
  predicate Issues(pc: Pc, g: Rid) {
    (Issuing(pc) || pc.Issued?) && pc.grant == g
  }

  /** What a statement tells about the request that has just made it. */
  ghost predicate Told(w: Tables, r: Rid, a: Pc, b: Pc, now: Instant) {
    && (b.Parked? ==> a == Authorize(b.terms))
    && (b.ApproveRead? ==>
          && a.Approve? && a.txn == b.txn && a.txn in w.txns
          && w.txns[a.txn].Undecided() && w.txns[a.txn].nonce == Some(a.nonce))
    && (b.ApproveGrant? ==> a.ApproveRead? && a.txn == b.txn && a.txn in w.txns && w.txns[a.txn].consumed.Open?)
    && (b.ApproveMint? ==> a.ApproveGrant? && a.txn == b.txn && a.terms == b.terms && b.deadline == now + GRANT_TTL)
    && (b.Minted? ==> a.ApproveMint? && b == Minted(a.txn, a.terms, a.deadline))
    && (b.Decide? && b.spent ==> a.SpendCheck? && a.cred == b.cred && a.ask == b.ask && Bears(w, a.cred, SpentBy(r)))
    && (Issuing(b) || b.Issued? ==> Issues(a, b.grant) || Decided(w, a, b.grant))
  }

  /** A redemption that goes on to issue: a code only for the right client,
      redirect URI and verifier. */
  ghost predicate Decided(w: Tables, a: Pc, g: Rid) {
    && a.Decide? && a.spent && a.cred.Grant() == g
    && (a.cred.Code? ==> exists t :: HasCode(w, t, g) && Matches(w.txns[t].terms, a.ask))
  }

  lemma ConsentTells(w: Tables, r: Rid, a: Pc, now: Instant)
    requires IsConsent(a)
    ensures Told(w, r, a, Consent(w, r, a, now).pc, now)
  {
  }

  lemma RedeemTells(w: Tables, r: Rid, a: Pc, now: Instant)
    requires !IsConsent(a) && !Ended(a)
    ensures Told(w, r, a, Redeem(w, r, a, now).pc, now)
  {
  }

  /** Request `r` is at `pc` in state `n`, and got there by its own step `m`. */
  lemma {:induction false} Entered(tr: Trace, n: nat, r: Rid) returns (m: nat)
    requires Run(tr) && n < |tr.states| && r in tr.states[n].reqs && !tr.states[n].reqs[r].Arrives()
    ensures m < n && m < |tr.steps| && tr.steps[m].Act? && tr.steps[m].r == r
    ensures r in tr.states[m].reqs && !Ended(tr.states[m].reqs[r])
    ensures Told(tr.states[m].working, r, tr.states[m].reqs[r], tr.states[n].reqs[r], tr.steps[m].now)
  {
    var s, st := tr.states[n - 1], tr.steps[n - 1];
    assert tr.states[n] == Next(s, st);
    if r in s.reqs && s.reqs[r] == tr.states[n].reqs[r] {
      m := Entered(tr, n - 1, r);
    } else {
      m := n - 1;
      ActAdvances(s.working, r, s.reqs[r], st.now);
      if IsConsent(s.reqs[r]) {
        ConsentTells(s.working, r, s.reqs[r], st.now);
      } else {
        RedeemTells(s.working, r, s.reqs[r], st.now);
      }
    }
  }

  // ---- The steps that a token goes back to ----

  /** Step `m` parks transaction `t`. */
  predicate CreatedAt(tr: Trace, m: nat, t: Rid, terms: Terms) {
    ActsAt(tr, m, t) && tr.states[m].reqs[t] == Authorize(terms)
  }

  /** Step `m` records the grant, with the deadline it keeps. */
  predicate GrantedAt(tr: Trace, m: nat, a: Rid, deadline: Instant) {
    ActsAt(tr, m, a) && tr.states[m].reqs[a].ApproveGrant? && deadline == tr.steps[m].now + GRANT_TTL
  }

  /** At step `m` request `q`, which has spent the code, passes the checks of
      client, redirect URI and verifier. */
  ghost predicate ExchangedAt(tr: Trace, m: nat, code: Rid, q: Rid, terms: Terms) {
    && ActsAt(tr, m, q) && tr.states[m].reqs[q].Decide? && tr.states[m].reqs[q].spent
    && tr.states[m].reqs[q].cred == Code(code) && Matches(terms, tr.states[m].reqs[q].ask)
  }

  lemma ApprovalHappened(tr: Trace, n: nat, a: Rid) returns (created: nat, approved: nat, granted: nat)
    requires Run(tr) && n < |tr.states| && IsMinted(tr.states[n].reqs, a)
    ensures var pc := tr.states[n].reqs[a];
            && created < approved < granted < n && CreatedAt(tr, created, pc.txn, pc.terms)
            && ApprovedAt(tr, approved, a, pc.txn) && GrantedAt(tr, granted, a, pc.deadline)
  {
    var minted := Entered(tr, n, a);
    granted := Entered(tr, minted, a);
    var read := Entered(tr, granted, a);
    approved := Entered(tr, read, a);
    created := CreationHappened(tr, approved, granted, tr.states[n].reqs[a].txn, a);
  }

  lemma CreationHappened(tr: Trace, m: nat, n: nat, t: Rid, a: Rid) returns (created: nat)
    requires Run(tr) && m < n < |tr.states| && t in tr.states[m].working.txns
    requires a in tr.states[n].reqs && tr.states[n].reqs[a].ApproveGrant? && tr.states[n].reqs[a].txn == t
    ensures created < m && CreatedAt(tr, created, t, tr.states[n].reqs[a].terms)
  {
    InvHolds(tr, m);
    InvHolds(tr, n);
    assert TxnFits(tr.states[m].reqs, t, tr.states[m].working.txns[t]);
    assert RequestFits(tr.states[n].reqs, tr.states[n].reqs[a]);
    ParkedStays(tr, m, n, t);
    created := Entered(tr, m, t);
  }

  /** Tokens under a grant go back, through any number of rotations, to the
      exchange of its code. */
  lemma {:induction false} ExchangeHappened(tr: Trace, n: nat, r: Rid, g: Rid) returns (m: nat, q: Rid)
    requires Run(tr) && n < |tr.states| && r in tr.states[n].reqs && Issues(tr.states[n].reqs[r], g)
    ensures m < n && IsMinted(tr.states[m].reqs, g) && ExchangedAt(tr, m, g, q, tr.states[m].reqs[g].terms)
    decreases n
  {
    var k := Entered(tr, n, r);
    var pc := tr.states[k].reqs[r];
    if Issues(pc, g) {
      m, q := ExchangeHappened(tr, k, r, g);
    } else if pc.cred.Code? {
      m, q := k, r;
      InvHolds(tr, k);
      CodeTerms(tr.states[k], g);
    } else {
      var l := Entered(tr, k, r);
      InvHolds(tr, l);
      RefreshWasIssued(tr.states[l], pc.cred, r);
      m, q := ExchangeHappened(tr, l, pc.cred.issue, g);
    }
  }

  lemma CodeTerms(s: State, g: Rid)
    requires Shape(s)
    ensures forall t | HasCode(s.working, t, g) :: IsMinted(s.reqs, g) && s.reqs[g].terms == s.working.txns[t].terms
  {
    forall t | HasCode(s.working, t, g)
      ensures IsMinted(s.reqs, g) && s.reqs[g].terms == s.working.txns[t].terms
    {
      assert TxnFits(s.reqs, t, s.working.txns[t]);
      assert RequestFits(s.reqs, s.reqs[g]);
    }
  }

  lemma RefreshWasIssued(s: State, cred: Cred, r: Rid)
    requires Shape(s) && !cred.Code? && Bears(s.working, cred, SpentBy(r))
    ensures cred.issue in s.reqs && Issues(s.reqs[cred.issue], cred.under)
  {
    assert TokenFits(s.reqs, cred, s.working.tokens[cred]);
  }

  // ---- Never denied ----

  /** The row of the transaction, where it is kept, is spent by `q`. */
  ghost predicate RowSpent(d: Tables, t: Rid, q: Rid) {
    t in d.txns ==> d.txns[t].consumed == SpentBy(q)
  }

  lemma RowStaysSpent(s: State, st: Step, t: Rid, q: Rid)
    requires RowsFit(s.working, s.reqs) && t in s.reqs && s.reqs[t].Parked?
    requires RowSpent(s.working, t, q) && RowSpent(s.committed, t, q)
    ensures RowSpent(Next(s, st).working, t, q) && RowSpent(Next(s, st).committed, t, q)
  {
    if st.Act? && st.r in s.reqs {
      ActMoves(s.working, s.reqs, st.r, st.now);
      NewRows(s.working, st.r, s.reqs[st.r], st.now, t);
    }
  }

  /** The row of a parked transaction is spent by `q` at state `m`. */
  ghost predicate SpentAt(tr: Trace, m: nat, t: Rid, q: Rid)
    requires m < |tr.states|
  {
    && t in tr.states[m].reqs && tr.states[m].reqs[t].Parked?
    && RowSpent(tr.states[m].working, t, q) && RowSpent(tr.states[m].committed, t, q)
  }

  lemma SpentOneOn(tr: Trace, m: nat, t: Rid, q: Rid)
    requires Run(tr) && m < |tr.steps| && SpentAt(tr, m, t, q)
    ensures SpentAt(tr, m + 1, t, q)
  {
    InvHolds(tr, m);
    EndedStays(tr.states[m], tr.steps[m], t);
    RowStaysSpent(tr.states[m], tr.steps[m], t, q);
  }

  lemma {:induction false} RowSpentForGood(tr: Trace, n: nat, m: nat, t: Rid, q: Rid)
    requires Run(tr) && n <= m < |tr.states| && SpentAt(tr, n, t, q)
    ensures SpentAt(tr, m, t, q)
    decreases m
  {
    if n < m {
      RowSpentForGood(tr, n, m - 1, t, q);
      SpentOneOn(tr, m - 1, t, q);
    }
  }

  lemma ParkedRow(s: State, a: Rid)
    requires Shape(s) && IsMinted(s.reqs, a)
    ensures s.reqs[a].txn in s.reqs && s.reqs[s.reqs[a].txn].Parked?
  {
    assert RequestFits(s.reqs, s.reqs[a]);
  }

  lemma WinIsRow(s: State, a: Rid, q: Rid)
    requires Shape(s) && Spenders(s) && q in s.reqs && s.reqs[q].SpendCheck? && s.reqs[q].cred == Code(a)
    requires Bears(s.working, Code(a), SpentBy(q)) && IsMinted(s.reqs, a)
    ensures s.reqs[a].txn in s.working.txns
    ensures RowSpent(s.working, s.reqs[a].txn, q) && RowSpent(s.committed, s.reqs[a].txn, q)
  {
    assert SpenderFits(s.working, s.committed, q, s.reqs[q]);
    BearsRow(s.working, s.reqs, a, q);
    BearsRow(s.committed, s.reqs, a, q);
  }

  lemma BearsRow(d: Tables, reqs: map<Rid, Pc>, a: Rid, q: Rid)
    requires RowsFit(d, reqs) && IsMinted(reqs, a) && Bears(d, Code(a), SpentBy(q))
    ensures reqs[a].txn in d.txns && RowSpent(d, reqs[a].txn, q)
  {
    var t :| HasCode(d, t, a) && d.txns[t].consumed == SpentBy(q);
    assert TxnFits(reqs, t, d.txns[t]);
  }

  lemma WinHappened(tr: Trace, n: nat, r: Rid) returns (m: nat)
    requires Run(tr) && n < |tr.states| && r in tr.states[n].reqs && tr.states[n].reqs[r].Decide? &&
            tr.states[n].reqs[r].spent
    ensures m < n && WinsAt(tr, m, tr.states[n].reqs[r].cred, r)
  {
    m := Entered(tr, n, r);
  }

  /** Where a verified token comes from. */
  datatype Origin = Origin(
    txn: Rid, terms: Terms, deadline: Instant, created: nat, approved: nat, granted: nat, exchanged: nat, spender: Rid)

  /** A principal traces back to one transaction: created, approved while still
      undecided with its latest nonce, granted, and exchanged by its own client.
      It has that transaction's client, scopes and resource, and does not outlive
      the deadline set when the grant was made; and the transaction, wherever its
      row is kept, is spent by the exchange, and every denial of it that was ever
      stamped has been undone by a rollback before anything committed it. */
  lemma ConsentConfinement(tr: Trace, n: nat, cred: Cred, resource: nat, now: Instant) returns (o: Origin)
    requires Run(tr) && n < |tr.states| && Verify(tr.states[n].working, cred, resource, now).Some?
    ensures var p := Verify(tr.states[n].working, cred, resource, now).value;
            && CreatedAt(tr, o.created, o.txn, o.terms)
            && ApprovedAt(tr, o.approved, p.grant, o.txn)
            && GrantedAt(tr, o.granted, p.grant, o.deadline)
            && ExchangedAt(tr, o.exchanged, p.grant, o.spender, o.terms)
            && o.created < o.approved < o.granted < o.exchanged < n
            && p.client == o.terms.client && p.scopes == o.terms.scopes && p.resource == o.terms.resource == resource
            && now < p.expires <= o.deadline
            && RowSpent(tr.states[n].working, o.txn, o.spender) && RowSpent(tr.states[n].committed, o.txn, o.spender)
            && forall i, r | 0 <= i < n && DeniedAt(tr, i, r, o.txn) :: UndoneBetween(tr, i, n)
  {
    var s, g := tr.states[n], cred.under;
    InvHolds(tr, n);
    assert TokenFits(s.reqs, cred, s.working.tokens[cred]);
    assert GrantFits(s.reqs, g, s.working.grants[g]);
    var exchanged, spender := ExchangeHappened(tr, n, cred.issue, g);
    ParkedStays(tr, exchanged, n, g);
    var created, approved, granted := ApprovalHappened(tr, exchanged, g);
    o := Origin(s.reqs[g].txn, s.reqs[g].terms, s.reqs[g].deadline, created, approved, granted, exchanged, spender);
    SpentNotDenied(tr, n, exchanged, g, spender);
  }

  lemma SpentNotDenied(tr: Trace, n: nat, m: nat, a: Rid, q: Rid)
    requires Run(tr) && m < n < |tr.states| && q in tr.states[m].reqs && IsMinted(tr.states[n].reqs, a)
    requires tr.states[m].reqs[q].Decide? && tr.states[m].reqs[q].spent && tr.states[m].reqs[q].cred == Code(a)
    ensures RowSpent(tr.states[n].working, tr.states[n].reqs[a].txn, q)
    ensures RowSpent(tr.states[n].committed, tr.states[n].reqs[a].txn, q)
    ensures forall i, r | 0 <= i < n && DeniedAt(tr, i, r, tr.states[n].reqs[a].txn) :: UndoneBetween(tr, i, n)
  {
    var won := WinHappened(tr, m, q);
    InvHolds(tr, won);
    WonIsMinted(tr.states[won], a, q);
    ParkedStays(tr, won, n, a);
    ParkedRow(tr.states[won], a);
    WinIsRow(tr.states[won], a, q);
    var t := tr.states[won].reqs[a].txn;
    RowSpentForGood(tr, won, n, t, q);
    forall i, r | 0 <= i < n && DeniedAt(tr, i, r, t) ensures UndoneBetween(tr, i, n) {
      DenialWasUndone(tr, i, won, n, t, r, q);
    }
  }

  /** A transaction whose row is spent at state `won` was not denied for good. */
  lemma DenialWasUndone(tr: Trace, i: nat, won: nat, n: nat, t: Rid, r: Rid, q: Rid)
    requires Run(tr) && i < n < |tr.states| && won < n && DeniedAt(tr, i, r, t)
    requires t in tr.states[won].working.txns && t in tr.states[won].reqs && tr.states[won].reqs[t].Parked?
    requires RowSpent(tr.states[won].working, t, q) && RowSpent(tr.states[won].committed, t, q)
    ensures UndoneBetween(tr, i, n)
  {
    if won <= i {
      RowSpentForGood(tr, won, i, t, q);
    } else {
      DenialLasts(tr, i, won, r, t);
      if UndoneBetween(tr, i, won) { Undo.UndoneStays(Kinds(tr), i, won, n); }
    }
  }

  lemma WonIsMinted(s: State, a: Rid, q: Rid)
    requires Shape(s) && Bears(s.working, Code(a), SpentBy(q))
    ensures IsMinted(s.reqs, a)
  {
    var t :| HasCode(s.working, t, a) && s.working.txns[t].consumed == SpentBy(q);
    assert TxnFits(s.reqs, t, s.working.txns[t]);
  }

  /** And to exactly one: a grant has one approval, so one transaction. */
  lemma OneApproval(tr: Trace, m: nat, n: nat, a: Rid, t: Rid, u: Rid)
    requires Run(tr) && ApprovedAt(tr, m, a, t) && ApprovedAt(tr, n, a, u)
    ensures m == n && t == u
  {
    OneMove(tr, m, n, a);
  }
}

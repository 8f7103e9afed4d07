/** What every interleaving of requests, commits and rollbacks keeps of the grant
    store: rows fit the requests that wrote them, a spender that is past its own
    commit sees nothing that is not durable, and a grant has at most one unit
    that can still turn into tokens. */
module GrantInvariant {
  import opened Options
  import opened GrantTables

  /** The approval `g` has got as far as recording its code. */
  predicate IsMinted(reqs: map<Rid, Pc>, g: Rid) {
    g in reqs && reqs[g].Minted?
  }

  predicate Spending(pc: Pc) {
    pc.SpendCommit? || pc.SpendCheck? || pc.Decide?
  }

  predicate Issuing(pc: Pc) {
    pc.Issue? || pc.IssueAccess? || pc.IssueRefresh?
  }

  /** A marker comes from a request that has made its UPDATE. */
  predicate MarkerFits(reqs: map<Rid, Pc>, m: Rid) {
    && m in reqs && !reqs[m].Spend? && !reqs[m].Present?
    && (Spending(reqs[m]) && reqs[m].cred.Code? ==> IsMinted(reqs, reqs[m].cred.approval))
  }

  predicate TxnFits(reqs: map<Rid, Pc>, t: Rid, row: Txn) {
    && t in reqs && reqs[t] == Parked(row.terms)
    && (row.code.Some? ==> IsMinted(reqs, row.code.value) && reqs[row.code.value].txn == t)
    && (row.consumed.SpentBy? ==> MarkerFits(reqs, row.consumed.marker))
  }

  predicate GrantFits(reqs: map<Rid, Pc>, g: Rid, row: Grant) {
    && g in reqs && (reqs[g].ApproveMint? || reqs[g].Minted?)
    && reqs[g].terms == row.terms && reqs[g].deadline == row.expires
  }

  predicate TokenFits(reqs: map<Rid, Pc>, c: Cred, row: Token) {
    && !c.Code? && IsMinted(reqs, c.under) && row.expires <= reqs[c.under].deadline
    && c.issue in reqs && (reqs[c.issue] == Issued(c.under) ||
                           (c.Access? && reqs[c.issue].IssueRefresh? && reqs[c.issue].grant == c.under))
    && (c.Access? ==> row.consumed.Open?)
    && (row.consumed.SpentBy? ==> MarkerFits(reqs, row.consumed.marker))
  }

  ghost predicate RowsFit(d: Tables, reqs: map<Rid, Pc>) {
    && (forall t | t in d.txns :: TxnFits(reqs, t, d.txns[t]))
    && (forall g | g in d.grants :: GrantFits(reqs, g, d.grants[g]))
    && (forall c | c in d.tokens :: TokenFits(reqs, c, d.tokens[c]))
  }

  predicate RequestFits(reqs: map<Rid, Pc>, pc: Pc) {
    && (pc.ApproveGrant? || pc.ApproveMint? || pc.Minted? ==> pc.txn in reqs && reqs[pc.txn] == Parked(pc.terms))
    && (Issuing(pc) || pc.Issued? ==> IsMinted(reqs, pc.grant))
    && (pc.IssueAccess? ==> pc.until <= pc.deadline)
    && (pc.IssueAccess? || pc.IssueRefresh? ==> pc.deadline == reqs[pc.grant].deadline)
    && (pc.Spend? || Spending(pc) ==> !pc.cred.Access?)
    && (pc.Decide? && pc.spent ==> IsMinted(reqs, pc.cred.Grant()))
  }

  /** Past its own commit, the marker a request sees pending is also durable;
      past a successful read-back the row can only carry that marker. */
  ghost predicate SpenderFits(w: Tables, c: Tables, r: Rid, pc: Pc) {
    && (pc.SpendCheck? || (pc.Decide? && pc.spent) ==>
          (Bears(w, pc.cred, SpentBy(r)) ==> Bears(c, pc.cred, SpentBy(r))))
    && (pc.Decide? && pc.spent ==> Bound(w, pc.cred, r) && Bound(c, pc.cred, r))
  }

  /** Every row of `cred` is spent by `r`. A token's row is there to stay. */
  ghost predicate Bound(d: Tables, cred: Cred, r: Rid) {
    if cred.Code? then forall t | HasCode(d, t, cred.approval) :: d.txns[t].consumed == SpentBy(r)
    else cred in d.tokens && d.tokens[cred].consumed == SpentBy(r)
  }

  /** What can still turn into tokens under a grant. */
  datatype Unit = UnspentCode(txn: Rid) | UnspentRefresh(issue: Rid) | UnderWay(r: Rid)

  ghost predicate IsUnit(d: Tables, reqs: map<Rid, Pc>, g: Rid, u: Unit) {
    match u
    case UnspentCode(t) => HasCode(d, t, g) && d.txns[t].consumed.Open?
    case UnspentRefresh(i) => Refresh(i, g) in d.tokens && d.tokens[Refresh(i, g)].consumed.Open?
    case UnderWay(r) =>
      && r in reqs
      && ((Issuing(reqs[r]) && reqs[r].grant == g) ||
          (Spending(reqs[r]) && reqs[r].cred.Grant() == g && Bears(d, reqs[r].cred, SpentBy(r))))
  }

  ghost predicate OneUnit(d: Tables, reqs: map<Rid, Pc>) {
    forall g, u, v | IsUnit(d, reqs, g, u) && IsUnit(d, reqs, g, v) :: u == v
  }

  ghost predicate Shape(s: State) {
    && RowsFit(s.working, s.reqs) && RowsFit(s.committed, s.reqs)
    && forall r | r in s.reqs :: RequestFits(s.reqs, s.reqs[r])
  }

  ghost predicate Spenders(s: State) {
    forall r | r in s.reqs :: SpenderFits(s.working, s.committed, r, s.reqs[r])
  }

  ghost predicate Inv(s: State) {
    Shape(s) && Spenders(s) && OneUnit(s.working, s.reqs) && OneUnit(s.committed, s.reqs)
  }

  // ---- Rows and requests stay in shape ----

  /** How a request may move on, as far as the rows that name it can tell. */
  predicate Follows(a: Pc, b: Pc) {
    && (a.Parked? || a.Minted? || a.Issued? ==> b == a)
    && (a.ApproveMint? ==> b == a || b == Minted(a.txn, a.terms, a.deadline))
    && (a.IssueRefresh? ==> b == a || b == Issued(a.grant))
    && (!a.Spend? && !a.Present? ==> !b.Spend? && !b.Present?)
    && (Spending(b) ==> (a.Spend? || Spending(a)) && a.cred == b.cred)
  }

  predicate Extends(reqs: map<Rid, Pc>, reqs': map<Rid, Pc>) {
    forall r | r in reqs :: r in reqs' && Follows(reqs[r], reqs'[r])
  }

  lemma ActFollows(w: Tables, r: Rid, pc: Pc, now: Instant)
    ensures Follows(pc, Proceed(w, r, pc, now).pc)
  {
  }

  lemma RowsCarryOver(d: Tables, reqs: map<Rid, Pc>, reqs': map<Rid, Pc>)
    requires RowsFit(d, reqs) && Extends(reqs, reqs')
    ensures RowsFit(d, reqs')
  {
    forall t | t in d.txns ensures TxnFits(reqs', t, d.txns[t]) { assert TxnFits(reqs, t, d.txns[t]); }
    forall g | g in d.grants ensures GrantFits(reqs', g, d.grants[g]) { assert GrantFits(reqs, g, d.grants[g]); }
    forall c | c in d.tokens ensures TokenFits(reqs', c, d.tokens[c]) { assert TokenFits(reqs, c, d.tokens[c]); }
  }

  lemma RequestCarriesOver(reqs: map<Rid, Pc>, reqs': map<Rid, Pc>, pc: Pc)
    requires RequestFits(reqs, pc) && Extends(reqs, reqs')
    ensures RequestFits(reqs', pc)
  {
  }

  lemma PutKeepsRows(w: Tables, reqs: map<Rid, Pc>, t: Rid, row: Txn)
    requires RowsFit(w, reqs) && TxnFits(reqs, t, row)
    ensures RowsFit(PutTxn(w, t, row), reqs)
  {
  }

  lemma GrantKeepsRows(w: Tables, reqs: map<Rid, Pc>, g: Rid, row: Grant)
    requires RowsFit(w, reqs) && GrantFits(reqs, g, row)
    ensures RowsFit(w.(grants := w.grants[g := row]), reqs)
  {
  }

  /** What consent makes of a transaction row. */
  lemma ConsentRowFits(w: Tables, reqs: map<Rid, Pc>, r: Rid, pc: Pc, e: Effect)
    requires IsConsent(pc) && !pc.Authorize? && !pc.ApproveGrant? && pc.txn in w.txns
    requires TxnFits(reqs, pc.txn, w.txns[pc.txn])
    requires exists now :: e == Consent(w, r, pc, now)
    requires r in reqs && reqs[r] == e.pc
    ensures pc.txn in e.db.txns && TxnFits(reqs, pc.txn, e.db.txns[pc.txn])
    ensures e.db == PutTxn(w, pc.txn, e.db.txns[pc.txn])
  {
    assert w == PutTxn(w, pc.txn, w.txns[pc.txn]);
  }

  lemma ConsentFits(w: Tables, reqs: map<Rid, Pc>, reqs': map<Rid, Pc>, r: Rid, now: Instant)
    requires RowsFit(w, reqs) && r in reqs && RequestFits(reqs, reqs[r]) && IsConsent(reqs[r])
    requires reqs' == reqs[r := Consent(w, r, reqs[r], now).pc]
    ensures RequestFits(reqs', reqs'[r])
  {
    var pc := reqs[r];
    if pc.ApproveRead? && pc.txn in w.txns { assert TxnFits(reqs, pc.txn, w.txns[pc.txn]); }
  }

  lemma ConsentKeepsRows(w: Tables, reqs: map<Rid, Pc>, reqs': map<Rid, Pc>, r: Rid, now: Instant)
    requires RowsFit(w, reqs') && r in reqs && IsConsent(reqs[r])
    requires reqs' == reqs[r := Consent(w, r, reqs[r], now).pc]
    ensures RowsFit(Consent(w, r, reqs[r], now).db, reqs')
  {
    var pc := reqs[r];
    var e := Consent(w, r, pc, now);
    if pc.ApproveGrant? {
      GrantKeepsRows(w, reqs', r, e.db.grants[r]);
    } else if pc.Authorize? {
      PutKeepsRows(w, reqs', r, e.db.txns[r]);
    } else if pc.txn in w.txns {
      ConsentRowFits(w, reqs', r, pc, e);
      PutKeepsRows(w, reqs', pc.txn, e.db.txns[pc.txn]);
    }
  }

  lemma StampKeepsRows(w: Tables, reqs: map<Rid, Pc>, r: Rid, cred: Cred)
    requires RowsFit(w, reqs) && !cred.Access?
    requires Stamped(w, r, cred).1 ==> MarkerFits(reqs, r)
    ensures RowsFit(Stamped(w, r, cred).0, reqs)
  {
  }

  lemma SpendKeepsRows(w: Tables, reqs: map<Rid, Pc>, r: Rid, now: Instant)
    requires RowsFit(w, reqs) && r in reqs && RequestFits(reqs, reqs[r]) && reqs[r].Spend?
    ensures var e := Redeem(w, r, reqs[r], now);
            RowsFit(e.db, reqs[r := e.pc]) && RequestFits(reqs[r := e.pc], e.pc)
  {
    var e := Redeem(w, r, reqs[r], now);
    var reqs' := reqs[r := e.pc];
    RowsCarryOver(w, reqs, reqs');
    StampKeepsRows(w, reqs', r, reqs[r].cred);
  }

  lemma DecisionFits(w: Tables, reqs: map<Rid, Pc>, pc: Pc)
    requires RowsFit(w, reqs) && RequestFits(reqs, pc) && pc.Decide?
    ensures RequestFits(reqs, Decision(w, pc.cred, pc.ask, pc.spent))
  {
  }

  lemma InsertKeepsRows(w: Tables, reqs: map<Rid, Pc>, c: Cred, row: Token)
    requires RowsFit(w, reqs) && TokenFits(reqs, c, row)
    ensures RowsFit(w.(tokens := w.tokens[c := row]), reqs)
  {
  }

  lemma TokenStepKeepsRows(w: Tables, reqs: map<Rid, Pc>, r: Rid, now: Instant)
    requires RowsFit(w, reqs) && r in reqs && RequestFits(reqs, reqs[r])
    requires Issuing(reqs[r]) || reqs[r].Revoke?
    ensures var e := Redeem(w, r, reqs[r], now);
            RowsFit(e.db, reqs[r := e.pc]) && RequestFits(reqs[r := e.pc], e.pc)
  {
    var pc := reqs[r];
    var e := Redeem(w, r, pc, now);
    var reqs' := reqs[r := e.pc];
    RowsCarryOver(w, reqs, reqs');
    RequestCarriesOver(reqs, reqs', pc);
    if pc.IssueAccess? {
      if pc.grant in w.grants { InsertKeepsRows(w, reqs', Access(r, pc.grant), Token(pc.until, Open)); }
    } else if pc.IssueRefresh? {
      if pc.grant in w.grants { InsertKeepsRows(w, reqs', Refresh(r, pc.grant), Token(pc.deadline, Open)); }
    } else if pc.Issue? {
      assert pc.grant in w.grants ==> GrantFits(reqs', pc.grant, w.grants[pc.grant]);
    }
  }

  lemma RedeemKeepsRows(w: Tables, reqs: map<Rid, Pc>, r: Rid, now: Instant)
    requires RowsFit(w, reqs) && r in reqs && RequestFits(reqs, reqs[r]) && !IsConsent(reqs[r])
    ensures var e := Redeem(w, r, reqs[r], now);
            RowsFit(e.db, reqs[r := e.pc]) && RequestFits(reqs[r := e.pc], e.pc)
  {
    var pc := reqs[r];
    if pc.Spend? {
      SpendKeepsRows(w, reqs, r, now);
    } else if Issuing(pc) || pc.Revoke? {
      TokenStepKeepsRows(w, reqs, r, now);
    } else {
      ReadKeepsRows(w, reqs, r, now);
    }
  }

  lemma ReadKeepsRows(w: Tables, reqs: map<Rid, Pc>, r: Rid, now: Instant)
    requires RowsFit(w, reqs) && r in reqs && RequestFits(reqs, reqs[r])
    requires !IsConsent(reqs[r]) && !reqs[r].Spend? && !Issuing(reqs[r]) && !reqs[r].Revoke?
    ensures var e := Redeem(w, r, reqs[r], now);
            e.db == w && RowsFit(w, reqs[r := e.pc]) && RequestFits(reqs[r := e.pc], e.pc)
  {
    var pc := reqs[r];
    var e := Redeem(w, r, pc, now);
    var reqs' := reqs[r := e.pc];
    assert e == Proceed(w, r, pc, now);
    ActFollows(w, r, pc, now);
    RowsCarryOver(w, reqs, reqs');
    RequestCarriesOver(reqs, reqs', pc);
    if pc.Decide? { DecisionFits(w, reqs', pc); }
  }

  lemma ActKeepsShape(s: State, r: Rid, now: Instant)
    requires Shape(s) && r in s.reqs
    ensures Shape(Next(s, Act(r, now)))
  {
    var e := Proceed(s.working, r, s.reqs[r], now);
    var reqs' := s.reqs[r := e.pc];
    ActFollows(s.working, r, s.reqs[r], now);
    RowsCarryOver(s.working, s.reqs, reqs');
    RowsCarryOver(s.committed, s.reqs, reqs');
    if IsConsent(s.reqs[r]) {
      ConsentFits(s.working, s.reqs, reqs', r, now);
      ConsentKeepsRows(s.working, s.reqs, reqs', r, now);
    } else {
      RedeemKeepsRows(s.working, s.reqs, r, now);
    }
    forall q | q in reqs' ensures RequestFits(reqs', reqs'[q]) {
      if q != r { RequestCarriesOver(s.reqs, reqs', s.reqs[q]); }
    }
  }

  // ---- Stamps ----

  /** What one statement of request `r` can do to stamps and codes. */
  ghost predicate Moves(w: Tables, w': Tables, r: Rid, minting: bool) {
    && (forall t | t in w'.txns ::
          if t in w.txns then TxnMoves(w.txns[t], w'.txns[t], r, minting)
          else w'.txns[t].code.None? && w'.txns[t].consumed.Open?)
    && (forall c | c in w.tokens :: c in w'.tokens && StampMoves(w.tokens[c].consumed, w'.tokens[c].consumed, r))
    && (forall c | c in w'.tokens && c !in w.tokens :: !c.Code? && c.issue == r && w'.tokens[c].consumed.Open?)
  }

  predicate StampMoves(a: Stamp, b: Stamp, r: Rid) {
    a == b || (a.Open? && (b.Denied? || b == SpentBy(r)))
  }

  predicate TxnMoves(a: Txn, b: Txn, r: Rid, minting: bool) {
    (a.code == b.code || (minting && b.code == Some(r))) && StampMoves(a.consumed, b.consumed, r)
  }

  /** The rows a request inserts are not there before. */
  predicate Inserts(w: Tables, r: Rid, pc: Pc) {
    && (pc.Authorize? ==> r !in w.txns)
    && (pc.IssueAccess? ==> Access(r, pc.grant) !in w.tokens)
    && (pc.IssueRefresh? ==> Refresh(r, pc.grant) !in w.tokens)
  }

  lemma InsertsAreNew(w: Tables, reqs: map<Rid, Pc>, r: Rid)
    requires RowsFit(w, reqs) && r in reqs
    ensures Inserts(w, r, reqs[r])
  {
  }

  lemma ConsentMoves(w: Tables, r: Rid, pc: Pc, now: Instant)
    requires Inserts(w, r, pc)
    ensures Moves(w, Consent(w, r, pc, now).db, r, pc.ApproveMint?)
  {
  }

  lemma RedeemMoves(w: Tables, r: Rid, pc: Pc, now: Instant)
    requires Inserts(w, r, pc)
    ensures Moves(w, Redeem(w, r, pc, now).db, r, false)
  {
    if pc.Spend? { StampMovesOneRow(w, r, pc.cred); }
  }

  lemma StampMovesOneRow(w: Tables, r: Rid, cred: Cred)
    ensures Moves(w, Stamped(w, r, cred).0, r, false)
  {
  }

  lemma ActMoves(w: Tables, reqs: map<Rid, Pc>, r: Rid, now: Instant)
    requires RowsFit(w, reqs) && r in reqs
    ensures Moves(w, Proceed(w, r, reqs[r], now).db, r, reqs[r].ApproveMint?)
  {
    InsertsAreNew(w, reqs, r);
    if IsConsent(reqs[r]) { ConsentMoves(w, r, reqs[r], now); } else { RedeemMoves(w, r, reqs[r], now); }
  }

  /** No statement of `r` puts another request's marker where that request
      looks for it, or takes it away. */
  lemma OthersKeepStamps(w: Tables, w': Tables, reqs: map<Rid, Pc>, r: Rid, q: Rid)
    requires RowsFit(w, reqs) && r in reqs && q in reqs && q != r && Spending(reqs[q])
    requires Moves(w, w', r, reqs[r].ApproveMint?) && RequestFits(reqs, reqs[q])
    ensures Bears(w', reqs[q].cred, SpentBy(q)) ==> Bears(w, reqs[q].cred, SpentBy(q))
    ensures reqs[q].Decide? && reqs[q].spent && Bound(w, reqs[q].cred, q) ==> Bound(w', reqs[q].cred, q)
  {
  }

  /** All that the units need to know of a statement that takes `d` to `d'`
      and request `r` to `pc`. */
  ghost predicate Statement(d: Tables, d': Tables, reqs: map<Rid, Pc>, r: Rid, pc: Pc) {
    && RowsFit(d, reqs) && r in reqs && (forall q | q in reqs :: RequestFits(reqs, reqs[q]))
    && Moves(d, d', r, reqs[r].ApproveMint?) && Follows(reqs[r], pc)
    && (Issuing(pc) ==> ComesFrom(d, r, reqs[r], pc))
    && (Spending(pc) && Spending(reqs[r]) ==> d' == d)
  }

  ghost predicate ComesFrom(d: Tables, r: Rid, a: Pc, b: Pc)
    requires Issuing(b)
  {
    || (Issuing(a) && b.grant == a.grant)
    || (a.Decide? && a.spent && b.grant == a.cred.Grant() && Bears(d, a.cred, SpentBy(r)))
  }

  lemma UnitComesFrom(d: Tables, d': Tables, reqs: map<Rid, Pc>, r: Rid, pc: Pc, g: Rid, u: Unit)
    requires Statement(d, d', reqs, r, pc) && IsUnit(d', reqs[r := pc], g, u)
    ensures || IsUnit(d, reqs, g, u)
            || (u == UnderWay(r) && reqs[r].Spend? && reqs[r].cred.Grant() == g && Bears(d', reqs[r].cred, SpentBy(r)))
            || (u == UnspentRefresh(r) && Refresh(r, g) !in d.tokens)
            || (u.UnspentCode? && g == r && reqs[r].ApproveMint?)
  {
    if u.UnderWay? && u.r != r && Spending(reqs[u.r]) { OthersKeepStamps(d, d', reqs, r, u.r); }
  }

  lemma ActKeepsSpenders(s: State, r: Rid, now: Instant)
    requires Shape(s) && Spenders(s) && r in s.reqs
    ensures Spenders(Next(s, Act(r, now)))
  {
    var s' := Next(s, Act(r, now));
    ActMoves(s.working, s.reqs, r, now);
    OwnSpender(s, r, now);
    forall q | q in s'.reqs ensures SpenderFits(s'.working, s'.committed, q, s'.reqs[q]) {
      if q != r {
        assert SpenderFits(s.working, s.committed, q, s.reqs[q]);
        if Spending(s.reqs[q]) { OthersKeepStamps(s.working, s'.working, s.reqs, r, q); }
      }
    }
  }

  lemma OwnSpender(s: State, r: Rid, now: Instant)
    requires Shape(s) && Spenders(s) && r in s.reqs
    ensures var s' := Next(s, Act(r, now)); SpenderFits(s'.working, s'.committed, r, s'.reqs[r])
  {
    SpendingPath(s.working, r, s.reqs[r], now);
    assert SpenderFits(s.working, s.committed, r, s.reqs[r]);
    OwnMarker(s, r, s.reqs[r], Proceed(s.working, r, s.reqs[r], now));
  }

  /** The way through a consumption: UPDATE, commit, read-back. */
  lemma SpendingPath(w: Tables, r: Rid, pc: Pc, now: Instant)
    ensures var e := Proceed(w, r, pc, now);
            && (e.pc.SpendCheck? ==> pc.SpendCommit?)
            && (e.pc.Decide? && e.pc.spent ==>
                  pc.SpendCheck? && e.db == w && e.pc.cred == pc.cred && Bears(w, pc.cred, SpentBy(r)))
  {
  }

  lemma OwnMarker(s: State, r: Rid, pc: Pc, e: Effect)
    requires Shape(s) && SpenderFits(s.working, s.committed, r, pc)
    requires e.pc.SpendCheck? ==> pc.SpendCommit?
    requires e.pc.Decide? && e.pc.spent ==>
               pc.SpendCheck? && e.db == s.working && e.pc.cred == pc.cred && Bears(s.working, pc.cred, SpentBy(r))
    ensures SpenderFits(e.db, if Commits(pc) then e.db else s.committed, r, e.pc)
  {
    if e.pc.Decide? && e.pc.spent {
      BearsIsBound(s.working, s.reqs, pc.cred, r);
      BearsIsBound(s.committed, s.reqs, pc.cred, r);
    }
  }

  lemma BearsIsBound(d: Tables, reqs: map<Rid, Pc>, cred: Cred, r: Rid)
    requires RowsFit(d, reqs) && Bears(d, cred, SpentBy(r))
    ensures Bound(d, cred, r)
  {
  }

  // ---- At most one unit ----

  lemma QuietKeepsOne(d: Tables, d': Tables, reqs: map<Rid, Pc>, reqs': map<Rid, Pc>, r: Rid)
    requires r in reqs' && reqs' == reqs[r := reqs'[r]] && Statement(d, d', reqs, r, reqs'[r]) && OneUnit(d, reqs)
    requires reqs[r].Spend? ==> !Bears(d', reqs[r].cred, SpentBy(r))
    requires !reqs[r].ApproveMint? || d' == d
    requires forall g :: Refresh(r, g) in d'.tokens ==> Refresh(r, g) in d.tokens
    ensures OneUnit(d', reqs')
  {
    forall g, u | IsUnit(d', reqs', g, u) ensures IsUnit(d, reqs, g, u) {
      UnitComesFrom(d, d', reqs, r, reqs'[r], g, u);
    }
  }

  /** The stamp turns the unspent credential into a redemption under way. */
  lemma SpendKeepsOne(d: Tables, d': Tables, reqs: map<Rid, Pc>, reqs': map<Rid, Pc>, r: Rid)
    requires r in reqs' && reqs' == reqs[r := reqs'[r]] && Statement(d, d', reqs, r, reqs'[r]) && OneUnit(d, reqs)
    requires reqs[r].Spend? && Stamped(d, r, reqs[r].cred) == (d', true)
    ensures OneUnit(d', reqs')
  {
    var x := StampTakesAUnit(d, d', reqs, reqs', r, reqs[r].cred);
    SpendAddsOne(d, d', reqs, reqs', r, reqs[r].cred.Grant());
    GivesWay(d, d', reqs, reqs', reqs[r].cred.Grant(), x, UnderWay(r));
  }

  lemma SpendAddsOne(d: Tables, d': Tables, reqs: map<Rid, Pc>, reqs': map<Rid, Pc>, r: Rid, g: Rid)
    requires r in reqs' && reqs' == reqs[r := reqs'[r]] && Statement(d, d', reqs, r, reqs'[r])
    requires reqs[r].Spend? && g == reqs[r].cred.Grant()
    requires forall h :: Refresh(r, h) in d'.tokens ==> Refresh(r, h) in d.tokens
    ensures forall h, u | IsUnit(d', reqs', h, u) :: IsUnit(d, reqs, h, u) || (h == g && u == UnderWay(r))
  {
    forall h, u | IsUnit(d', reqs', h, u)
      ensures IsUnit(d, reqs, h, u) || (h == g && u == UnderWay(r))
    {
      UnitComesFrom(d, d', reqs, r, reqs'[r], h, u);
    }
  }

  lemma StampTakesAUnit(d: Tables, d': Tables, reqs: map<Rid, Pc>, reqs': map<Rid, Pc>, r: Rid, cred: Cred)
      returns (x: Unit)
    requires !cred.Access? && Stamped(d, r, cred) == (d', true)
    ensures IsUnit(d, reqs, cred.Grant(), x) && !IsUnit(d', reqs', cred.Grant(), x)
    ensures d'.tokens.Keys == d.tokens.Keys
  {
    x := if cred.Code? then UnspentCode(CodeRow(d, cred.approval).value) else UnspentRefresh(cred.issue);
  }

  lemma GivesWay(d: Tables, d': Tables, reqs: map<Rid, Pc>, reqs': map<Rid, Pc>, g: Rid, x: Unit, y: Unit)
    requires OneUnit(d, reqs) && IsUnit(d, reqs, g, x) && !IsUnit(d', reqs', g, x)
    requires forall h, u | IsUnit(d', reqs', h, u) :: IsUnit(d, reqs, h, u) || (h == g && u == y)
    ensures OneUnit(d', reqs')
  {
  }

  /** Issuing ends by turning into an unspent refresh token. */
  lemma IssueKeepsOne(d: Tables, d': Tables, reqs: map<Rid, Pc>, reqs': map<Rid, Pc>, r: Rid)
    requires r in reqs' && reqs' == reqs[r := reqs'[r]] && Statement(d, d', reqs, r, reqs'[r]) && OneUnit(d, reqs)
    requires reqs[r].IssueRefresh? && reqs'[r].Issued?
    requires forall g :: Refresh(r, g) in d'.tokens && Refresh(r, g) !in d.tokens ==> g == reqs[r].grant
    ensures OneUnit(d', reqs')
  {
    assert IsUnit(d, reqs, reqs[r].grant, UnderWay(r));
    forall g, u | IsUnit(d', reqs', g, u)
      ensures IsUnit(d, reqs, g, u) || (g == reqs[r].grant && u == UnspentRefresh(r))
    {
      UnitComesFrom(d, d', reqs, r, reqs'[r], g, u);
    }
    GivesWay(d, d', reqs, reqs', reqs[r].grant, UnderWay(r), UnspentRefresh(r));
  }

  /** A code is the first unit of its grant. */
  lemma MintKeepsOne(d: Tables, d': Tables, reqs: map<Rid, Pc>, reqs': map<Rid, Pc>, r: Rid)
    requires r in reqs' && reqs' == reqs[r := reqs'[r]] && Statement(d, d', reqs, r, reqs'[r]) && OneUnit(d, reqs)
    requires reqs[r].ApproveMint? && reqs'[r].Minted? && d'.tokens == d.tokens && RowsFit(d', reqs')
    ensures OneUnit(d', reqs')
  {
    forall u ensures !IsUnit(d, reqs, r, u) { NoUnitBefore(d, reqs, r, u); }
    forall g, u | IsUnit(d', reqs', g, u)
      ensures (IsUnit(d, reqs, g, u) && g != r) || (g == r && u == UnspentCode(reqs'[r].txn))
    {
      UnitComesFrom(d, d', reqs, r, reqs'[r], g, u);
    }
  }

  lemma NoUnitBefore(d: Tables, reqs: map<Rid, Pc>, r: Rid, u: Unit)
    requires RowsFit(d, reqs) && r in reqs && reqs[r].ApproveMint?
    requires forall q | q in reqs :: RequestFits(reqs, reqs[q])
    ensures !IsUnit(d, reqs, r, u)
  {
  }

  lemma IssuersComeFromStamps(w: Tables, r: Rid, pc: Pc, now: Instant)
    requires pc.Decide? && pc.spent ==> Bound(w, pc.cred, r)
    ensures var pc' := Proceed(w, r, pc, now).pc; Issuing(pc') ==> ComesFrom(w, r, pc, pc')
  {
  }

  lemma StatementOf(s: State, r: Rid, now: Instant)
    requires Inv(s) && r in s.reqs
    ensures var e := Proceed(s.working, r, s.reqs[r], now);
            Statement(s.working, e.db, s.reqs, r, e.pc) && Statement(s.committed, s.committed, s.reqs, r, e.pc)
  {
    ActMoves(s.working, s.reqs, r, now);
    ActFollows(s.working, r, s.reqs[r], now);
    assert SpenderFits(s.working, s.committed, r, s.reqs[r]);
    IssuersComeFromStamps(s.working, r, s.reqs[r], now);
    SpendingLeavesDb(s.working, r, s.reqs[r], now);
    StatementOnBoth(s, r, Proceed(s.working, r, s.reqs[r], now));
  }

  lemma StatementOnBoth(s: State, r: Rid, e: Effect)
    requires Shape(s) && r in s.reqs && SpenderFits(s.working, s.committed, r, s.reqs[r])
    requires Moves(s.working, e.db, r, s.reqs[r].ApproveMint?) && Follows(s.reqs[r], e.pc)
    requires Issuing(e.pc) ==> ComesFrom(s.working, r, s.reqs[r], e.pc)
    requires Spending(s.reqs[r]) ==> e.db == s.working
    ensures Statement(s.working, e.db, s.reqs, r, e.pc) && Statement(s.committed, s.committed, s.reqs, r, e.pc)
  {
  }

  lemma SpendingLeavesDb(w: Tables, r: Rid, pc: Pc, now: Instant)
    ensures Spending(pc) ==> Proceed(w, r, pc, now).db == w
  {
  }

  lemma FreshMarker(d: Tables, reqs: map<Rid, Pc>, r: Rid, cred: Cred)
    requires RowsFit(d, reqs) && r in reqs && reqs[r].Spend?
    ensures !Bears(d, cred, SpentBy(r))
  {
  }

  lemma CommittedKeepsOne(s: State, r: Rid, now: Instant)
    requires Inv(s) && r in s.reqs && !Commits(s.reqs[r])
    ensures OneUnit(s.committed, Next(s, Act(r, now)).reqs)
  {
    StatementOf(s, r, now);
    if s.reqs[r].Spend? { FreshMarker(s.committed, s.reqs, r, s.reqs[r].cred); }
    QuietKeepsOne(s.committed, s.committed, s.reqs, Next(s, Act(r, now)).reqs, r);
  }

  lemma WorkingKeepsOne(s: State, r: Rid, now: Instant)
    requires Inv(s) && r in s.reqs
    ensures var s' := Next(s, Act(r, now)); OneUnit(s'.working, s'.reqs)
  {
    var pc := s.reqs[r];
    if pc.Spend? {
      SpendStepKeepsOne(s, r, now);
    } else if pc.IssueRefresh? {
      StatementOf(s, r, now);
      IssueKeepsOne(s.working, Next(s, Act(r, now)).working, s.reqs, Next(s, Act(r, now)).reqs, r);
    } else if pc.ApproveMint? {
      MintStepKeepsOne(s, r, now);
    } else {
      OtherStepKeepsOne(s, r, now);
    }
  }

  lemma SpendStepKeepsOne(s: State, r: Rid, now: Instant)
    requires Inv(s) && r in s.reqs && s.reqs[r].Spend?
    ensures var s' := Next(s, Act(r, now)); OneUnit(s'.working, s'.reqs)
  {
    var s', pc := Next(s, Act(r, now)), s.reqs[r];
    StatementOf(s, r, now);
    FreshMarker(s.working, s.reqs, r, pc.cred);
    if Stamped(s.working, r, pc.cred).1 {
      SpendKeepsOne(s.working, s'.working, s.reqs, s'.reqs, r);
    } else {
      QuietKeepsOne(s.working, s'.working, s.reqs, s'.reqs, r);
    }
  }

  lemma MintStepKeepsOne(s: State, r: Rid, now: Instant)
    requires Inv(s) && r in s.reqs && s.reqs[r].ApproveMint?
    ensures var s' := Next(s, Act(r, now)); OneUnit(s'.working, s'.reqs)
  {
    StatementOf(s, r, now);
    var e := Proceed(s.working, r, s.reqs[r], now);
    MintShape(s, r, now, e);
    MintKeepsOne(s.working, e.db, s.reqs, s.reqs[r := e.pc], r);
  }

  lemma MintShape(s: State, r: Rid, now: Instant, e: Effect)
    requires Shape(s) && r in s.reqs && s.reqs[r].ApproveMint? && e == Proceed(s.working, r, s.reqs[r], now)
    ensures RowsFit(e.db, s.reqs[r := e.pc]) && e.db.tokens == s.working.tokens && e.pc.Minted?
  {
    var reqs' := s.reqs[r := e.pc];
    ActFollows(s.working, r, s.reqs[r], now);
    RowsCarryOver(s.working, s.reqs, reqs');
    ConsentKeepsRows(s.working, s.reqs, reqs', r, now);
  }

  lemma OtherStepKeepsOne(s: State, r: Rid, now: Instant)
    requires Inv(s) && r in s.reqs && !s.reqs[r].Spend? && !s.reqs[r].IssueRefresh? && !s.reqs[r].ApproveMint?
    ensures var s' := Next(s, Act(r, now)); OneUnit(s'.working, s'.reqs)
  {
    var s' := Next(s, Act(r, now));
    StatementOf(s, r, now);
    InsertsNoRefresh(s.working, r, s.reqs[r], now);
    QuietKeepsOne(s.working, s'.working, s.reqs, s'.reqs, r);
  }

  lemma InsertsNoRefresh(w: Tables, r: Rid, pc: Pc, now: Instant)
    requires !pc.IssueRefresh?
    ensures forall g :: Refresh(r, g) in Proceed(w, r, pc, now).db.tokens ==> Refresh(r, g) in w.tokens
  {
  }

  lemma ActKeepsInv(s: State, r: Rid, now: Instant)
    requires Inv(s) && r in s.reqs
    ensures Inv(Next(s, Act(r, now)))
  {
    ActKeepsShape(s, r, now);
    ActKeepsSpenders(s, r, now);
    WorkingKeepsOne(s, r, now);
    if !Commits(s.reqs[r]) { CommittedKeepsOne(s, r, now); }
  }

  // ---- Arrivals, and statements of nobody ----

  lemma BeginKeepsInv(s: State, r: Rid, pc: Pc)
    requires Inv(s)
    ensures Inv(Next(s, Begin(r, pc)))
  {
    var s' := Next(s, Begin(r, pc));
    RowsCarryOver(s.working, s.reqs, s'.reqs);
    RowsCarryOver(s.committed, s.reqs, s'.reqs);
    forall q | q in s'.reqs
      ensures RequestFits(s'.reqs, s'.reqs[q]) && SpenderFits(s'.working, s'.committed, q, s'.reqs[q])
    {
      if q in s.reqs { RequestCarriesOver(s.reqs, s'.reqs, s.reqs[q]); }
    }
    ArrivalIsNoUnit(s.working, s.reqs, s'.reqs, r, pc);
    ArrivalIsNoUnit(s.committed, s.reqs, s'.reqs, r, pc);
  }

  lemma ArrivalIsNoUnit(d: Tables, reqs: map<Rid, Pc>, reqs': map<Rid, Pc>, r: Rid, pc: Pc)
    requires OneUnit(d, reqs) && (reqs' == reqs || (r !in reqs && pc.Arrives() && reqs' == reqs[r := pc]))
    ensures OneUnit(d, reqs')
  {
    forall g, u | IsUnit(d, reqs', g, u) ensures IsUnit(d, reqs, g, u) {}
  }

  lemma PurgeKeepsInv(s: State, now: Instant)
    requires Inv(s)
    ensures Inv(Next(s, Purge(now)))
  {
    var s' := Next(s, Purge(now));
    forall q | q in s.reqs ensures SpenderFits(s'.working, s'.committed, q, s'.reqs[q]) {
      assert SpenderFits(s.working, s.committed, q, s.reqs[q]);
      PurgeOnlyForgets(s, s', q, now);
    }
    forall g, u | IsUnit(s'.working, s'.reqs, g, u) ensures IsUnit(s.working, s.reqs, g, u) {
      if u.UnderWay? { PurgeOnlyForgets(s, s', u.r, now); }
    }
  }

  lemma PurgeOnlyForgets(s: State, s': State, q: Rid, now: Instant)
    requires s' == Next(s, Purge(now)) && q in s.reqs
    ensures Spending(s.reqs[q]) && Bears(s'.working, s.reqs[q].cred, SpentBy(q)) ==>
            Bears(s.working, s.reqs[q].cred, SpentBy(q))
    ensures Spending(s.reqs[q]) && Bound(s.working, s.reqs[q].cred, q) ==> Bound(s'.working, s.reqs[q].cred, q)
  {
    if Spending(s.reqs[q]) && s.reqs[q].cred.Code? && Bears(s'.working, s.reqs[q].cred, SpentBy(q)) {
      var t :| HasCode(s'.working, t, s.reqs[q].cred.approval) && s'.working.txns[t].consumed == SpentBy(q);
      assert HasCode(s.working, t, s.reqs[q].cred.approval);
    }
    if Spending(s.reqs[q]) && s.reqs[q].cred.Code? && Bound(s.working, s.reqs[q].cred, q) {
      forall t | HasCode(s'.working, t, s.reqs[q].cred.approval) ensures s'.working.txns[t].consumed == SpentBy(q) {
        assert HasCode(s.working, t, s.reqs[q].cred.approval);
      }
    }
  }

  /** The tables that stamps and units depend on. */
  lemma DisableKeepsInv(s: State, c: Client)
    requires Inv(s)
    ensures Inv(Next(s, Disable(c)))
  {
    var w, w' := s.working, Next(s, Disable(c)).working;
    forall q | q in s.reqs ensures SpenderFits(w', s.committed, q, s.reqs[q]) {
      assert SpenderFits(w, s.committed, q, s.reqs[q]);
      if Spending(s.reqs[q]) { SameRows(w, w', s.reqs[q].cred, q); }
    }
    forall g, u | IsUnit(w', s.reqs, g, u) ensures IsUnit(w, s.reqs, g, u) {
      if u.UnderWay? && Spending(s.reqs[u.r]) { SameRows(w, w', s.reqs[u.r].cred, u.r); }
    }
  }

  lemma SameRows(w: Tables, w': Tables, cred: Cred, q: Rid)
    requires w'.txns == w.txns && w'.tokens == w.tokens
    ensures Bears(w', cred, SpentBy(q)) == Bears(w, cred, SpentBy(q)) && Bound(w', cred, q) == Bound(w, cred, q)
  {
    assert forall t :: cred.Code? ==> HasCode(w', t, cred.approval) == HasCode(w, t, cred.approval);
  }

  /** A commit or a rollback leaves one set of tables. */
  lemma SyncKeepsInv(d: Tables, reqs: map<Rid, Pc>, s: State)
    requires Inv(s) && reqs == s.reqs && (d == s.working || d == s.committed)
    ensures Inv(State(d, d, reqs))
  {
    forall q | q in reqs ensures SpenderFits(d, d, q, reqs[q]) {
      assert SpenderFits(s.working, s.committed, q, s.reqs[q]);
    }
  }

  lemma StepKeepsInv(s: State, st: Step)
    requires Inv(s)
    ensures Inv(Next(s, st))
  {
    match st
    case Begin(r, pc) => BeginKeepsInv(s, r, pc);
    case Act(r, now) => if r in s.reqs { ActKeepsInv(s, r, now); }
    case Commit => SyncKeepsInv(s.working, s.reqs, s);
    case Rollback => SyncKeepsInv(s.committed, s.reqs, s);
    case Purge(now) => PurgeKeepsInv(s, now);
    case Disable(c) => DisableKeepsInv(s, c);
  }
}

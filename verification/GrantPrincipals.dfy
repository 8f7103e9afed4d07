/** What an issued token is worth: how long it is kept, and exactly when it stands
    for a principal. */
module GrantPrincipals {
  import opened Options
  import opened GrantTables
  import opened GrantInvariant
  import opened GrantRuns
  import opened GrantIssuance
  import GrantRevocation
  import Undo

  // ---- How long a token is kept ----

  /** The request that issues `c` is past its INSERT. */
  predicate Past(pc: Pc, c: Cred) {
    pc.Issued? || (c.Access? && pc.IssueRefresh?)
  }

  lemma PastStays(w: Tables, r: Rid, pc: Pc, now: Instant, c: Cred)
    requires Past(pc, c)
    ensures Past(Proceed(w, r, pc, now).pc, c)
  {
  }

  /** Apart from its INSERT nothing adds or drops a token or moves its deadline. */
  lemma TokenRow(w: Tables, r: Rid, pc: Pc, now: Instant, c: Cred)
    requires !c.Code? && (r == c.issue ==> Past(pc, c))
    ensures var w' := Proceed(w, r, pc, now).db;
            (c in w'.tokens <==> c in w.tokens) && (c in w.tokens ==> w'.tokens[c].expires == w.tokens[c].expires)
  {
  }

  predicate Shows(d: Tables, c: Cred, there: bool, expires: Instant) {
    (c in d.tokens <==> there) && (there ==> d.tokens[c].expires == expires)
  }

  /** The token inserted at step `i`, as state `j` shows it. */
  ghost predicate Lodged(tr: Trace, i: nat, j: nat, c: Cred, expires: Instant)
    requires j < |tr.states|
  {
    var s := tr.states[j];
    && !c.Code? && c.issue in s.reqs && Past(s.reqs[c.issue], c)
    && Kept(UndoneBetween(tr, i, j), CommittedBetween(tr, i, j), s.working, s.committed, c, expires)
  }

  /** What the pending and the durable tables show of a token, given whether its
      INSERT has been undone and whether it has been committed. */
  predicate Kept(undone: bool, committed: bool, w: Tables, d: Tables, c: Cred, expires: Instant) {
    Shows(w, c, !undone, expires) && Shows(d, c, !undone && committed, expires)
  }

  lemma WorkingShows(s: State, st: Step, c: Cred, there: bool, expires: Instant)
    requires !c.Code? && c.issue in s.reqs && Past(s.reqs[c.issue], c) && !st.Rollback?
    requires Shows(s.working, c, there, expires)
    ensures Shows(Next(s, st).working, c, there, expires)
  {
    if st.Act? && st.r in s.reqs { TokenRow(s.working, st.r, s.reqs[st.r], st.now, c); }
  }

  lemma KeptOneOn(s: State, st: Step, undone: bool, committed: bool, c: Cred, expires: Instant)
    requires !c.Code? && c.issue in s.reqs && Past(s.reqs[c.issue], c)
    requires Kept(undone, committed, s.working, s.committed, c, expires)
    ensures Kept(undone || (st.Rollback? && !committed), committed || KindOf(s, st).Commits?,
                 Next(s, st).working, Next(s, st).committed, c, expires)
  {
    if !st.Rollback? { WorkingShows(s, st, c, !undone, expires); }
    DurableStep(s, st);
  }

  lemma PastOneOn(tr: Trace, j: nat, c: Cred)
    requires Run(tr) && j < |tr.steps| && !c.Code?
    requires c.issue in tr.states[j].reqs && Past(tr.states[j].reqs[c.issue], c)
    ensures c.issue in tr.states[j + 1].reqs && Past(tr.states[j + 1].reqs[c.issue], c)
  {
    if IsActOf(tr, j, c.issue) {
      Waits(tr, j, j + 1, c.issue);
      PastStays(tr.states[j].working, c.issue, tr.states[j].reqs[c.issue], tr.steps[j].now, c);
    } else {
      StepAdvances(tr.states[j], tr.steps[j], c.issue);
    }
  }

  lemma LodgedOneOn(tr: Trace, i: nat, j: nat, c: Cred, expires: Instant)
    requires Run(tr) && i < j < |tr.steps| && Lodged(tr, i, j, c, expires)
    ensures Lodged(tr, i, j + 1, c, expires)
  {
    OneStepOn(tr, i, j);
    PastOneOn(tr, j, c);
    KeptOneOn(tr.states[j], tr.steps[j], UndoneBetween(tr, i, j), CommittedBetween(tr, i, j), c, expires);
  }

  /** At step `i` the token is inserted, with the deadline given. */
  predicate InsertedAt(tr: Trace, i: nat, c: Cred, expires: Instant) {
    && !c.Code? && ActsAt(tr, i, c.issue) && c.under in tr.states[i].working.grants
    && var pc := tr.states[i].reqs[c.issue];
       if c.Access? then pc.IssueAccess? && pc.grant == c.under && pc.until == expires
       else pc == IssueRefresh(c.under, expires)
  }

  lemma InsertPuts(w: Tables, reqs: map<Rid, Pc>, c: Cred, pc: Pc, now: Instant, expires: Instant)
    requires !c.Code? && c.under in w.grants
    requires if c.Access? then pc.IssueAccess? && pc.grant == c.under && pc.until == expires
             else pc == IssueRefresh(c.under, expires)
    ensures var e := Proceed(w, c.issue, pc, now); Shows(e.db, c, true, expires) && Past(e.pc, c)
  {
  }

  lemma FirstInsert(s: State, st: Step, c: Cred, expires: Instant)
    requires RowsFit(s.committed, s.reqs) && !c.Code? && c.under in s.working.grants
    requires st.Act? && st.r == c.issue && c.issue in s.reqs
    requires var pc := s.reqs[c.issue];
             if c.Access? then pc.IssueAccess? && pc.grant == c.under && pc.until == expires
             else pc == IssueRefresh(c.under, expires)
    ensures Kept(false, false, Next(s, st).working, Next(s, st).committed, c, expires)
    ensures c.issue in Next(s, st).reqs && Past(Next(s, st).reqs[c.issue], c)
  {
    InsertsAreNew(s.committed, s.reqs, c.issue);
    InsertPuts(s.working, s.reqs, c, s.reqs[c.issue], st.now, expires);
  }

  lemma LodgedAtFirst(tr: Trace, i: nat, c: Cred, expires: Instant)
    requires Run(tr) && InsertedAt(tr, i, c, expires)
    ensures Lodged(tr, i, i + 1, c, expires)
  {
    InvHolds(tr, i);
    FirstInsert(tr.states[i], tr.steps[i], c, expires);
  }

  lemma {:induction false} LodgedFrom(tr: Trace, i: nat, m: nat, n: nat, c: Cred, expires: Instant)
    requires Run(tr) && i < m <= n < |tr.states| && Lodged(tr, i, m, c, expires)
    ensures Lodged(tr, i, n, c, expires)
    decreases n - m
  {
    if m < n {
      LodgedOneOn(tr, i, m, c, expires);
      LodgedFrom(tr, i, m + 1, n, c, expires);
    }
  }

  /** A token is there exactly as long as no rollback comes between its INSERT and
      the first commit after it, durably from that commit on; and its deadline is
      the one it was inserted with. */
  lemma KeptIffNotUndone(tr: Trace, i: nat, j: nat, c: Cred, expires: Instant)
    requires Run(tr) && InsertedAt(tr, i, c, expires) && i < j < |tr.states|
    ensures Shows(tr.states[j].working, c, !UndoneBetween(tr, i, j), expires)
    ensures Shows(tr.states[j].committed, c, !UndoneBetween(tr, i, j) && CommittedBetween(tr, i, j), expires)
  {
    LodgedAtFirst(tr, i, c, expires);
    LodgedFrom(tr, i, i + 1, j, c, expires);
  }

  // ---- Principals ----

  /** A principal is returned exactly for an access token that is kept, unspent and
      unexpired, under a grant that is kept, unexpired and not revoked, of a client
      that is not disabled, for the grant's own resource; and it says what the grant
      says. */
  lemma PrincipalIff(w: Tables, cred: Cred, resource: nat, now: Instant)
    ensures Verify(w, cred, resource, now).Some? <==>
            && cred.Access? && cred in w.tokens && w.tokens[cred].consumed.Open? && now < w.tokens[cred].expires
            && cred.under in w.grants && now < w.grants[cred.under].expires && !w.grants[cred.under].revoked
            && w.grants[cred.under].terms.client !in w.disabled && w.grants[cred.under].terms.resource == resource
    ensures Verify(w, cred, resource, now).Some? ==>
              var terms := w.grants[cred.under].terms;
              Verify(w, cred, resource, now).value ==
              Principal(cred.under, terms.client, terms.scopes, terms.resource, w.tokens[cred].expires)
  {
  }

  /** The grant behind a token that is kept. */
  lemma GrantBehind(s: State, c: Cred)
    requires Shape(s) && Grounded(s.working) && c in s.working.tokens
    ensures !c.Code? && c.under in s.working.grants && IsMinted(s.reqs, c.under)
    ensures s.working.grants[c.under].terms == s.reqs[c.under].terms
    ensures s.working.tokens[c].expires <= s.working.grants[c.under].expires
    ensures c.Access? ==> s.working.tokens[c].consumed.Open?
  {
    assert TokenFits(s.reqs, c, s.working.tokens[c]);
    assert GrantFits(s.reqs, c.under, s.working.grants[c.under]);
  }

  /** In every run, an access token stands for a principal exactly when its INSERT
      was not undone, it has not expired, no revocation of its grant stands, the
      client is not disabled and the resource is the one consented to. */
  lemma VerifiesIff(tr: Trace, i: nat, j: nat, c: Cred, expires: Instant, resource: nat, now: Instant)
    requires Run(tr) && c.Access? && InsertedAt(tr, i, c, expires) && i < j < |tr.states|
    ensures IsMinted(tr.states[i].reqs, c.under)
    ensures var terms := tr.states[i].reqs[c.under].terms;
            && (Verify(tr.states[j].working, c, resource, now).Some? <==>
                  && !UndoneBetween(tr, i, j) && now < expires && !GrantRevocation.OneStands(tr, j, c.under)
                  && terms.client !in tr.states[j].working.disabled && resource == terms.resource)
            && (Verify(tr.states[j].working, c, resource, now).Some? ==>
                  Verify(tr.states[j].working, c, resource, now).value ==
                  Principal(c.under, terms.client, terms.scopes, resource, expires))
  {
    InvHolds(tr, i);
    assert RequestFits(tr.states[i].reqs, tr.states[i].reqs[c.issue]);
    ParkedStays(tr, i, j, c.under);
    KeptIffNotUndone(tr, i, j, c, expires);
    PrincipalIff(tr.states[j].working, c, resource, now);
    if c in tr.states[j].working.tokens {
      InvHolds(tr, j);
      AllGrounded(tr, j);
      GrantBehind(tr.states[j], c);
      GrantRevocation.RevokedIffOneStands(tr, j, c.under);
    }
  }

  /** The pair that a redemption has issued: either token is there exactly as long
      as its INSERT is not undone, the access token with at most an hour and the
      refresh token with the grant's whole time; and the access token stands for a
      principal exactly while it is there, has not run out and nothing bars it. */
  lemma PairIsWorth(tr: Trace, r: Rid, p: Path, g: Rid, j: nat, resource: nat, now: Instant)
    requires Run(tr) && Walks(tr, r, p) && PairIssued(tr, r, p, g) && p.refresh < j < |tr.states|
    ensures var issued, deadline := tr.steps[p.read].now, tr.states[p.read].working.grants[g].expires;
            var until := if issued + 3600 < deadline then issued + 3600 else deadline;
            var terms := tr.states[p.read].working.grants[g].terms;
            && Shows(tr.states[j].working, Access(r, g), !UndoneBetween(tr, p.access, j), until)
            && Shows(tr.states[j].working, Refresh(r, g), !UndoneBetween(tr, p.refresh, j), deadline)
            && (Verify(tr.states[j].working, Access(r, g), resource, now).Some? <==>
                  && !UndoneBetween(tr, p.access, j) && now < until && !GrantRevocation.OneStands(tr, j, g)
                  && terms.client !in tr.states[j].working.disabled && resource == terms.resource)
  {
    var issued, deadline := tr.steps[p.read].now, tr.states[p.read].working.grants[g].expires;
    var until := if issued + 3600 < deadline then issued + 3600 else deadline;
    KeptIffNotUndone(tr, p.access, j, Access(r, g), until);
    KeptIffNotUndone(tr, p.refresh, j, Refresh(r, g), deadline);
    VerifiesIff(tr, p.access, j, Access(r, g), until, resource, now);
    TermsOfGrant(tr, p.read, p.access, g);
  }

  lemma TermsOfGrant(tr: Trace, m: nat, n: nat, g: Rid)
    requires Run(tr) && m <= n < |tr.states| && g in tr.states[m].working.grants && IsMinted(tr.states[n].reqs, g)
    ensures tr.states[n].reqs[g].terms == tr.states[m].working.grants[g].terms
  {
    InvHolds(tr, m);
    assert GrantFits(tr.states[m].reqs, g, tr.states[m].working.grants[g]);
    GrantTermsStay(tr, m, n, g);
  }

  predicate HasTerms(s: State, g: Rid, terms: Terms) {
    g in s.reqs && (s.reqs[g].ApproveMint? || s.reqs[g].Minted?) && s.reqs[g].terms == terms
  }

  lemma {:induction false} GrantTermsStay(tr: Trace, m: nat, n: nat, g: Rid)
    requires Run(tr) && m <= n < |tr.states| && g in tr.states[m].reqs
    requires tr.states[m].reqs[g].ApproveMint? || tr.states[m].reqs[g].Minted?
    ensures HasTerms(tr.states[n], g, tr.states[m].reqs[g].terms)
    decreases n
  {
    if m < n {
      GrantTermsStay(tr, m, n - 1, g);
      StepAdvances(tr.states[n - 1], tr.steps[n - 1], g);
      if IsActOf(tr, n - 1, g) {
        Waits(tr, n - 1, n, g);
        ActFollows(tr.states[n - 1].working, g, tr.states[n - 1].reqs[g], tr.steps[n - 1].now);
      }
    }
  }

  // ---- Disabled clients ----

  /** What the pending and the durable tables show of the client. */
  predicate Barred(undone: bool, committed: bool, w: Tables, d: Tables, c: Client) {
    !undone ==> c in w.disabled && (committed ==> c in d.disabled)
  }

  lemma DisabledKept(w: Tables, r: Rid, pc: Pc, now: Instant)
    ensures Proceed(w, r, pc, now).db.disabled == w.disabled
  {
  }

  lemma BarredOneOn(s: State, st: Step, undone: bool, committed: bool, c: Client)
    requires Barred(undone, committed, s.working, s.committed, c)
    ensures Barred(undone || (st.Rollback? && !committed), committed || KindOf(s, st).Commits?,
                   Next(s, st).working, Next(s, st).committed, c)
  {
    if st.Act? && st.r in s.reqs { DisabledKept(s.working, st.r, s.reqs[st.r], st.now); }
    DurableStep(s, st);
  }

  ghost predicate BarredAt(tr: Trace, i: nat, j: nat, c: Client)
    requires j < |tr.states|
  {
    Barred(UndoneBetween(tr, i, j), CommittedBetween(tr, i, j), tr.states[j].working, tr.states[j].committed, c)
  }

  lemma BarredStep(tr: Trace, i: nat, j: nat, c: Client)
    requires Run(tr) && i < j < |tr.steps| && BarredAt(tr, i, j, c)
    ensures BarredAt(tr, i, j + 1, c)
  {
    OneStepOn(tr, i, j);
    BarredOneOn(tr.states[j], tr.steps[j], UndoneBetween(tr, i, j), CommittedBetween(tr, i, j), c);
  }

  lemma {:induction false} DisabledStays(tr: Trace, i: nat, j: nat, c: Client)
    requires Run(tr) && i < j < |tr.states| && tr.steps[i] == Disable(c)
    ensures BarredAt(tr, i, j, c)
    decreases j
  {
    if i + 1 < j {
      DisabledStays(tr, i, j - 1, c);
      BarredStep(tr, i, j - 1, c);
    } else {
      assert tr.states[j] == Next(tr.states[i], tr.steps[i]);
    }
  }

  /** Once a client is disabled, and no rollback undoes that before a commit, no
      token of its grants stands for a principal, and no refresh token of them gets
      as far as being spent. */
  lemma DisabledClientIsBarred(tr: Trace, i: nat, j: nat, c: Client, cred: Cred, resource: nat, scopes: set<nat>,
                               now: Instant)
    requires Run(tr) && i < j < |tr.states| && tr.steps[i] == Disable(c) && !UndoneBetween(tr, i, j)
    requires cred.Grant() in tr.states[j].working.grants
    requires tr.states[j].working.grants[cred.Grant()].terms.client == c
    ensures Verify(tr.states[j].working, cred, resource, now).None?
    ensures !Rotatable(tr.states[j].working, cred, scopes, now)
  {
    DisabledStays(tr, i, j, c);
  }

  // ---- Revocation by token ----

  /** A revocation by token goes on to revoke exactly when the token is kept and
      belongs to the client that asks. */
  lemma RevokesByTokenIff(tr: Trace, i: nat, j: nat, r: Rid, cred: Cred, client: Client)
    requires Run(tr) && NextAct(tr, i, j, r) && tr.states[i].reqs[r] == RevokeBy(cred, client)
    ensures GrantRevocation.RevokesAt(tr, j, cred.Grant()) <==>
            && cred in tr.states[i].working.tokens
            && cred.Grant() in tr.states[i].working.grants
            && tr.states[i].working.grants[cred.Grant()].terms.client == client
  {
    Waits(tr, i, j, r);
    RevokeByGoesOn(tr.states[i].working, r, cred, client, tr.steps[i].now);
  }

  lemma RevokeByGoesOn(w: Tables, r: Rid, cred: Cred, client: Client, now: Instant)
    ensures Proceed(w, r, RevokeBy(cred, client), now).pc == Revoke(cred.Grant()) <==>
            && cred in w.tokens && cred.Grant() in w.grants && w.grants[cred.Grant()].terms.client == client
  {
  }
}

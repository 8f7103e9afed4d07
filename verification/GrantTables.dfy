/** The OAuth grant store on a shared connection. Every request runs its
    statements one by one; between any two of them any other request may run
    its own, and may commit or roll back what is pending for all of them. */
module GrantTables {
  import opened Options

  /** Requests are numbered. Whatever a request generates (a transaction id, a
      nonce, a grant, a code, tokens, a consumption marker) is named after the
      request, which is how "random and never repeated" is modelled. */
  type Rid = nat
  type Client = nat
  type Instant = int

  const TRANSACTION_TTL: int := 600
  const CODE_TTL: int := 600
  const ACCESS_TTL: int := 3600
  const GRANT_TTL: int := 30 * 86400

  /** What the administrator is asked to consent to. */
  datatype Terms = Terms(client: Client, redirect: nat, challenge: nat, scopes: set<nat>, resource: nat)

  /** `consumed_at` and `consumed_by`; a denial leaves no marker. */
  datatype Stamp = Open | Denied | SpentBy(marker: Rid)

  /** A credential is named after the request that generated it. A code and the
      grant it stands for come from the same approval, and are recorded by the
      same UPDATE; a token carries the grant it was issued under. */
  datatype Cred =
    | Code(approval: Rid)
    | Access(issue: Rid, under: Rid)
    | Refresh(issue: Rid, under: Rid)
  {
    function Grant(): Rid { if Code? then approval else under }
  }

  datatype Txn = Txn(
    terms: Terms, nonce: Option<Rid>, approved: bool, consumed: Stamp, code: Option<Rid>, expires: Instant)
  {
    predicate Undecided() { !approved && consumed.Open? }
  }

  datatype Grant = Grant(terms: Terms, expires: Instant, revoked: bool)

  datatype Token = Token(expires: Instant, consumed: Stamp)

  datatype Tables = Tables(
    txns: map<Rid, Txn>,
    grants: map<Rid, Grant>,
    tokens: map<Cred, Token>,
    disabled: set<Client>)

  /** What came with a redemption: for a code the client, the redirect URI if
      one was sent, the digest of the verifier, and the time of arrival; for a
      refresh token the client and the client its grant belongs to. */
  datatype Ask =
    | Exchange(client: Client, redirect: Option<nat>, proof: nat, at: Instant)
    | Rotate(client: Client, owner: Client)

  /** What a request does next. */
  datatype Pc =
    | Authorize(terms: Terms)
    | Parked(terms: Terms)
    | Arm(txn: Rid)
    | Deny(txn: Rid, nonce: Rid)
    | Approve(txn: Rid, nonce: Rid)
    | ApproveRead(txn: Rid, at: Instant)
    | ApproveGrant(txn: Rid, terms: Terms, at: Instant)
    | ApproveMint(txn: Rid, terms: Terms, at: Instant, deadline: Instant)
    | Minted(txn: Rid, terms: Terms, deadline: Instant)
    | Present(cred: Cred, client: Client, scopes: set<nat>)
    | Spend(cred: Cred, ask: Ask)
    | SpendCommit(cred: Cred, ask: Ask, changed: bool)
    | SpendCheck(cred: Cred, ask: Ask)
    | Decide(cred: Cred, ask: Ask, spent: bool)
    | Issue(grant: Rid)
    | IssueAccess(grant: Rid, until: Instant, deadline: Instant)
    | IssueRefresh(grant: Rid, deadline: Instant)
    | Issued(grant: Rid)
    | RevokeBy(cred: Cred, client: Client)
    | Revoke(grant: Rid)
    | RevokeCommit(grant: Rid)
    | Done
  {
    /** How a request can arrive. */
    predicate Arrives() {
      || Authorize? || Arm? || Deny? || Approve? || Present? || RevokeBy? || Revoke?
      || (Spend? && cred.Code? && ask.Exchange?)
    }
  }

  datatype State = State(working: Tables, committed: Tables, reqs: map<Rid, Pc>)

  const NOTHING := Tables(map[], map[], map[], {})
  const START := State(NOTHING, NOTHING, map[])

  datatype Step =
    | Begin(r: Rid, pc: Pc)
    | Act(r: Rid, now: Instant)
    | Commit
    | Rollback
    | Purge(now: Instant)
    | Disable(client: Client)

  // ---- Statements ----

  predicate HasCode(d: Tables, t: Rid, code: Rid) {
    t in d.txns && d.txns[t].code == Some(code)
  }

  /** `WHERE code_hash = ?`; the column is unique. */
  ghost function CodeRow(d: Tables, code: Rid): (t: Option<Rid>)
    ensures t.Some? ==> HasCode(d, t.value, code)
    ensures t.None? ==> forall u :: !HasCode(d, u, code)
  {
    if exists u :: HasCode(d, u, code) then
      var u :| HasCode(d, u, code);
      Some(u)
    else None
  }

  function PutTxn(d: Tables, t: Rid, row: Txn): Tables {
    d.(txns := d.txns[t := row])
  }

  datatype Effect = Effect(db: Tables, pc: Pc)

  /** Consent: the transaction, its nonce, the decision, the grant, the code. */
  function Consent(w: Tables, r: Rid, pc: Pc, now: Instant): Effect {
    match pc
    case Authorize(terms) =>
      Effect(PutTxn(w, r, Txn(terms, None, false, Open, None, now + TRANSACTION_TTL)), Parked(terms))
    case Arm(t) =>
      Effect(if t in w.txns && w.txns[t].Undecided() then PutTxn(w, t, w.txns[t].(nonce := Some(r))) else w, Done)
    case Deny(t, nonce) =>
      if t in w.txns && w.txns[t].Undecided() && w.txns[t].nonce == Some(nonce) then
        Effect(PutTxn(w, t, w.txns[t].(consumed := Denied)), Done)
      else Effect(w, Done)
    case Approve(t, nonce) =>
      if t in w.txns && w.txns[t].Undecided() && w.txns[t].nonce == Some(nonce) then
        Effect(PutTxn(w, t, w.txns[t].(approved := true)), ApproveRead(t, now))
      else Effect(w, Done)
    case ApproveRead(t, at) =>
      if t in w.txns && w.txns[t].consumed.Open? && now < w.txns[t].expires then
        Effect(w, ApproveGrant(t, w.txns[t].terms, at))
      else Effect(w, Done)
    case ApproveGrant(t, terms, at) =>
      Effect(w.(grants := w.grants[r := Grant(terms, now + GRANT_TTL, false)]),
             ApproveMint(t, terms, at, now + GRANT_TTL))
    case ApproveMint(t, terms, at, deadline) =>
      Effect(if t in w.txns && r in w.grants
             then PutTxn(w, t, w.txns[t].(code := Some(r), expires := at + CODE_TTL)) else w,
             Minted(t, terms, deadline))
    case _ => Effect(w, pc)
  }

  /** The conditional UPDATE that spends a credential, with its marker. */
  ghost function Stamped(w: Tables, r: Rid, cred: Cred): (Tables, bool) {
    if cred.Code? then
      var t := CodeRow(w, cred.approval);
      if t.Some? && w.txns[t.value].consumed.Open?
      then (PutTxn(w, t.value, w.txns[t.value].(consumed := SpentBy(r))), true) else (w, false)
    else if cred in w.tokens && w.tokens[cred].consumed.Open?
    then (w.(tokens := w.tokens[cred := w.tokens[cred].(consumed := SpentBy(r))]), true) else (w, false)
  }

  /** Some row of `cred` carries the stamp. */
  ghost predicate Bears(d: Tables, cred: Cred, stamp: Stamp) {
    if cred.Code? then exists t :: HasCode(d, t, cred.approval) && d.txns[t].consumed == stamp
    else cred in d.tokens && d.tokens[cred].consumed == stamp
  }

  predicate Matches(terms: Terms, ask: Ask) {
    && ask.Exchange? && ask.client == terms.client && ask.proof == terms.challenge
    && (ask.redirect.Some? ==> ask.redirect.value == terms.redirect)
  }

  /** After the read-back: go on to issue, refuse, or treat it as a replay. */
  ghost function Decision(w: Tables, cred: Cred, ask: Ask, spent: bool): Pc {
    if cred.Code? then
      var t := CodeRow(w, cred.approval);
      if t.None? then Done
      else
        var row := w.txns[t.value];
        if !spent then if row.consumed.Open? then Done else Revoke(cred.approval)
        else if ask.Exchange? && row.expires > ask.at && Matches(row.terms, ask) then Issue(cred.approval)
        else Done
    else if spent then if ask.Rotate? && ask.client == ask.owner then Issue(cred.Grant()) else Done
    else if cred in w.tokens && w.tokens[cred].consumed.Open? then Done
    else Revoke(cred.Grant())
  }

  /** The look at a refresh token before it is spent. */
  function Presented(w: Tables, cred: Cred, client: Client, scopes: set<nat>, now: Instant): Pc {
    if !(cred.Refresh? && cred in w.tokens && cred.under in w.grants) then Done
    else
      var token, grant := w.tokens[cred], w.grants[cred.under];
      if !token.consumed.Open? then Revoke(cred.under)
      else if token.expires <= now || grant.expires <= now then Done
      else if grant.revoked || grant.terms.client in w.disabled then Done
      else if !(scopes <= grant.terms.scopes) then Done
      else Spend(cred, Rotate(client, grant.terms.client))
  }

  /** The token endpoint and revocation. A token row refers to its grant, so it
      cannot be inserted without it. */
  ghost function Redeem(w: Tables, r: Rid, pc: Pc, now: Instant): Effect {
    match pc
    case Present(cred, client, scopes) => Effect(w, Presented(w, cred, client, scopes, now))
    case Spend(cred, ask) =>
      var (w', changed) := Stamped(w, r, cred);
      Effect(w', SpendCommit(cred, ask, changed))
    case SpendCommit(cred, ask, changed) =>
      Effect(w, if changed then SpendCheck(cred, ask) else Decide(cred, ask, false))
    case SpendCheck(cred, ask) => Effect(w, Decide(cred, ask, Bears(w, cred, SpentBy(r))))
    case Decide(cred, ask, spent) => Effect(w, Decision(w, cred, ask, spent))
    case Issue(g) =>
      if g !in w.grants then Effect(w, Done)
      else
        var deadline := w.grants[g].expires;
        Effect(w, IssueAccess(g, if now + ACCESS_TTL < deadline then now + ACCESS_TTL else deadline, deadline))
    case IssueAccess(g, until, deadline) =>
      if g !in w.grants then Effect(w, Done)
      else Effect(w.(tokens := w.tokens[Access(r, g) := Token(until, Open)]), IssueRefresh(g, deadline))
    case IssueRefresh(g, deadline) =>
      Effect(if g in w.grants then w.(tokens := w.tokens[Refresh(r, g) := Token(deadline, Open)]) else w, Issued(g))
    case RevokeBy(cred, client) =>
      Effect(w, if cred in w.tokens && cred.Grant() in w.grants && w.grants[cred.Grant()].terms.client == client
                then Revoke(cred.Grant()) else Done)
    case Revoke(g) =>
      Effect(if g in w.grants then w.(grants := w.grants[g := w.grants[g].(revoked := true)]) else w, RevokeCommit(g))
    case RevokeCommit(g) => Effect(w, Done)
    case _ => Effect(w, pc)
  }

  predicate IsConsent(pc: Pc) {
    pc.Authorize? || pc.Arm? || pc.Deny? || pc.Approve? || pc.ApproveRead? || pc.ApproveGrant? || pc.ApproveMint?
  }

  ghost function Proceed(w: Tables, r: Rid, pc: Pc, now: Instant): Effect {
    if IsConsent(pc) then Consent(w, r, pc, now) else Redeem(w, r, pc, now)
  }

  /** The commits of the spending and the revoking request matter by their
      place; every other commit is covered by `Commit`, which may come at any time. */
  predicate Commits(pc: Pc) { pc.SpendCommit? || pc.RevokeCommit? }

  ghost function Next(s: State, st: Step): State {
    match st
    case Begin(r, pc) => if r !in s.reqs && pc.Arrives() then s.(reqs := s.reqs[r := pc]) else s
    case Act(r, now) =>
      if r !in s.reqs then s
      else
        var e := Proceed(s.working, r, s.reqs[r], now);
        State(e.db, if Commits(s.reqs[r]) then e.db else s.committed, s.reqs[r := e.pc])
    case Commit => s.(committed := s.working)
    case Rollback => s.(working := s.committed)
    case Purge(now) =>
      var w := s.working;
      s.(working := w.(txns := map t | t in w.txns && w.txns[t].expires >= now :: w.txns[t]))
    case Disable(c) => s.(working := s.working.(disabled := s.working.disabled + {c}))
  }

  datatype Principal = Principal(grant: Rid, client: Client, scopes: set<nat>, resource: nat, expires: Instant)

  function Verify(w: Tables, cred: Cred, resource: nat, now: Instant): Option<Principal> {
    if !(cred.Access? && cred in w.tokens && w.tokens[cred].consumed.Open? && cred.under in w.grants) then None
    else
      var token, grant := w.tokens[cred], w.grants[cred.under];
      if token.expires <= now || grant.expires <= now then None
      else if grant.revoked || grant.terms.client in w.disabled then None
      else if grant.terms.resource != resource then None
      else Some(Principal(cred.under, grant.terms.client, grant.terms.scopes, grant.terms.resource, token.expires))
  }
}

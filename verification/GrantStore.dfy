/** The grant store's operations as the code writes them, statement by statement
    on the shared connection. `undone` says that another request rolls back
    between the UPDATE and the commit that follows it. */
module GrantStore {
  import opened Options
  import opened GrantTables

  datatype Answer = Redeemed | Refused | Replayed

  /** `code_hash` is a unique column. */
  ghost predicate UniqueCodes(d: Tables) {
    forall t, u, c | HasCode(d, t, c) && HasCode(d, u, c) :: t == u
  }

  /** Nobody has used the marker yet. */
  ghost predicate Unmarked(d: Tables, cred: Cred, r: Rid) {
    !Bears(d, cred, SpentBy(r))
  }

  ghost predicate Kept(d: Tables, code: Rid) {
    exists t :: HasCode(d, t, code)
  }

  lemma StampShows(w: Tables, r: Rid, cred: Cred)
    requires UniqueCodes(w) && Unmarked(w, cred, r)
    ensures var (w', changed) := Stamped(w, r, cred);
            && UniqueCodes(w')
            && (changed <==> Bears(w, cred, Open))
            && (Bears(w', cred, SpentBy(r)) <==> changed)
            && w'.grants == w.grants
            && (cred.Code? ==> (Kept(w', cred.approval) <==> Kept(w, cred.approval)))
  {
    var (w', changed) := Stamped(w, r, cred);
    if cred.Code? {
      StampedCode(w, r, cred.approval);
      if changed {
        var t :| HasCode(w, t, cred.approval) && w.txns[t].consumed.Open?;
        assert HasCode(w', t, cred.approval) && w'.txns[t].consumed == SpentBy(r);
      } else {
        assert w' == w;
      }
      forall t, u, c | HasCode(w', t, c) && HasCode(w', u, c) ensures t == u {
        assert HasCode(w, t, c) && HasCode(w, u, c);
      }
    } else {
      KeepsCodes(w, w');
    }
  }

  lemma StampedCode(w: Tables, r: Rid, code: Rid)
    requires UniqueCodes(w)
    ensures var (w', changed) := Stamped(w, r, Code(code));
            && (forall t, c :: HasCode(w', t, c) <==> HasCode(w, t, c))
            && (forall t | HasCode(w, t, code) ::
                  w'.txns[t] == if w.txns[t].consumed.Open? then w.txns[t].(consumed := SpentBy(r)) else w.txns[t])
            && (changed <==> exists t :: HasCode(w, t, code) && w.txns[t].consumed.Open?)
  {
  }

  class Store {
    var working: Tables
    var committed: Tables

    constructor ()
      ensures working == committed == NOTHING
    {
      working, committed := NOTHING, NOTHING;
    }

    /** `WHERE code_hash = ?`. */
    method FindCode(code: Rid) returns (t: Option<Rid>)
      requires UniqueCodes(working)
      ensures t == CodeRow(working, code)
    {
      var rest := working.txns.Keys;
      while rest != {}
        invariant rest <= working.txns.Keys
        invariant forall u | u in working.txns && u !in rest :: !HasCode(working, u, code)
      {
        var u :| u in rest;
        if working.txns[u].code == Some(code) {
          assert HasCode(working, u, code);
          return Some(u);
        }
        rest := rest - {u};
      }
      t := None;
    }

    /** The conditional UPDATE; answers whether a row changed. */
    method Stamp(r: Rid, cred: Cred) returns (changed: bool)
      requires UniqueCodes(working)
      modifies this`working
      ensures (working, changed) == Stamped(old(working), r, cred)
    {
      if cred.Code? {
        var t := FindCode(cred.approval);
        if t.Some? && working.txns[t.value].consumed.Open? {
          working := PutTxn(working, t.value, working.txns[t.value].(consumed := SpentBy(r)));
          return true;
        }
        return false;
      }
      if cred in working.tokens && working.tokens[cred].consumed.Open? {
        working := working.(tokens := working.tokens[cred := working.tokens[cred].(consumed := SpentBy(r))]);
        return true;
      }
      return false;
    }

    /** Spending a credential succeeds exactly when it was unspent and the stamp
        was not rolled back from under the request. A lost stamp leaves what was
        durable, and is answered with false. */
    method Consume(r: Rid, cred: Cred, undone: bool) returns (spent: bool)
      requires UniqueCodes(working) && UniqueCodes(committed)
      requires Unmarked(working, cred, r) && Unmarked(committed, cred, r)
      modifies this
      ensures committed == working == if undone then old(committed) else Stamped(old(working), r, cred).0
      ensures spent <==> !undone && Bears(old(working), cred, Open)
      ensures spent <==> Bears(working, cred, SpentBy(r))
      ensures UniqueCodes(working)
    {
      StampShows(working, r, cred);
      var changed := Stamp(r, cred);
      if undone {
        working := committed;
      }
      committed := working;
      if !changed {
        return false;
      }
      spent := ReadBack(r, cred);
    }

    method ReadBack(r: Rid, cred: Cred) returns (mine: bool)
      requires UniqueCodes(working)
      ensures mine == Bears(working, cred, SpentBy(r))
    {
      if cred.Code? {
        var t := FindCode(cred.approval);
        return t.Some? && working.txns[t.value].consumed == SpentBy(r);
      }
      return cred in working.tokens && working.tokens[cred].consumed == SpentBy(r);
    }

    method RevokeGrant(g: Rid, undone: bool)
      modifies this
      ensures undone ==> working == committed == old(committed)
      ensures !undone ==> committed == working == Redeem(old(working), 0, Revoke(g), 0).db
    {
      if g in working.grants {
        working := working.(grants := working.grants[g := working.grants[g].(revoked := true)]);
      }
      if undone {
        working := committed;
      }
      committed := working;
    }

    /** Redeeming a code that was not rolled back from under the request: the
        first use of an unspent, unexpired code succeeds, an unspent one that is
        late is refused and spent all the same, and a code already spent ends the
        grant it stands for. */
    method RedeemCode(r: Rid, code: Rid, at: Instant) returns (answer: Answer)
      requires UniqueCodes(working) && UniqueCodes(committed)
      requires Unmarked(working, Code(code), r) && Unmarked(committed, Code(code), r)
      modifies this
      ensures committed == working && UniqueCodes(working)
      ensures answer.Redeemed? <==> exists t :: HasCode(old(working), t, code) && old(working).txns[t].consumed.Open?
                                                && old(working).txns[t].expires > at
      ensures Bears(old(working), Code(code), Open) ==> Bears(working, Code(code), SpentBy(r))
      ensures answer.Replayed? <==> Kept(old(working), code) && !Bears(old(working), Code(code), Open)
      ensures answer.Replayed? ==> (code in working.grants ==> working.grants[code].revoked)
      ensures Bears(old(working), Code(code), Open) ==> !Bears(working, Code(code), Open) && Kept(working, code)
      ensures !answer.Replayed? ==> working.grants == old(working).grants
      ensures forall t :: HasCode(working, t, code) <==> HasCode(old(working), t, code)
      ensures forall t | HasCode(working, t, code) ::
                working.txns[t].consumed == old(working).txns[t].consumed || working.txns[t].consumed == SpentBy(r)
    {
      StampShows(working, r, Code(code));
      StampedCode(working, r, code);
      var spent := Consume(r, Code(code), false);
      var t := FindCode(code);
      if t.None? {
        return Refused;
      }
      if !spent {
        RevokeGrant(code, false);
        KeepsCodes(old(working), working);
        return Replayed;
      }
      return if working.txns[t.value].expires <= at then Refused else Redeemed;
    }

    /** Whatever the first use came to, a second use of a code whose row is kept
        is a replay and ends the grant. */
    method RedeemTwice(r: Rid, q: Rid, code: Rid, at: Instant, later: Instant) returns (first: Answer, second: Answer)
      requires UniqueCodes(working) && UniqueCodes(committed) && r != q && Kept(working, code)
      requires Unmarked(working, Code(code), r) && Unmarked(committed, Code(code), r)
      requires Unmarked(working, Code(code), q) && Unmarked(committed, Code(code), q)
      modifies this
      ensures second.Replayed? && committed == working && (code in working.grants ==> working.grants[code].revoked)
    {
      first := RedeemCode(r, code, at);
      second := RedeemCode(q, code, later);
    }
  }

  lemma KeepsCodes(w: Tables, w': Tables)
    requires w'.txns == w.txns && UniqueCodes(w)
    ensures UniqueCodes(w')
  {
    forall t, u, c | HasCode(w', t, c) && HasCode(w', u, c) ensures t == u {
      assert HasCode(w, t, c) && HasCode(w, u, c);
    }
  }
}

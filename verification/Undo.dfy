/** What survives on a connection that anybody may commit or roll back. A fact is
    set by some statements; it is pending until something commits it, and a
    rollback takes everything pending back to what is durable. */
module Undo {
  import opened Options

  datatype Kind = Plain | Commits | RollsBack

  ghost predicate Committed(kinds: seq<Kind>, i: int, j: int) {
    exists l :: 0 <= i < l < j && l < |kinds| && kinds[l].Commits?
  }

  /** After step `i` a rollback comes before the first commit. */
  ghost predicate Undone(kinds: seq<Kind>, i: int, j: int) {
    exists l :: 0 <= i < l < j && l < |kinds| && kinds[l].RollsBack? && !Committed(kinds, i, l)
  }

  lemma OneStepOn(kinds: seq<Kind>, i: nat, j: nat)
    requires i < j < |kinds|
    ensures Committed(kinds, i, j + 1) <==> Committed(kinds, i, j) || kinds[j].Commits?
    ensures Undone(kinds, i, j + 1) <==> Undone(kinds, i, j) || (kinds[j].RollsBack? && !Committed(kinds, i, j))
  {
    var next := j + 1;
    if Committed(kinds, i, j) {
      var l :| 0 <= i < l < j && l < |kinds| && kinds[l].Commits?;
      assert 0 <= i < l < next && kinds[l].Commits?;
    }
    if Undone(kinds, i, j) {
      var l :| 0 <= i < l < j && l < |kinds| && kinds[l].RollsBack? && !Committed(kinds, i, l);
      assert 0 <= i < l < next && kinds[l].RollsBack?;
    }
  }

  lemma UndoneStays(kinds: seq<Kind>, i: nat, m: nat, n: nat)
    requires m <= n && Undone(kinds, i, m)
    ensures Undone(kinds, i, n)
  {
    var l :| 0 <= i < l < m && l < |kinds| && kinds[l].RollsBack? && !Committed(kinds, i, l);
    assert 0 <= i < l < n;
  }

  /** A commit settles whether what was pending before it was undone. */
  lemma CommitSettles(kinds: seq<Kind>, i: nat, c: nat, n: nat)
    requires i < c < n && c < |kinds| && kinds[c].Commits?
    ensures Committed(kinds, i, n) && (Undone(kinds, i, n) <==> Undone(kinds, i, c))
  {
    assert 0 <= i < c < n;
    if Undone(kinds, i, n) {
      var l :| 0 <= i < l < n && l < |kinds| && kinds[l].RollsBack? && !Committed(kinds, i, l);
      assert c < l ==> 0 <= i < c < l;
      assert 0 <= i < l < c;
    }
    if Undone(kinds, i, c) { UndoneStays(kinds, i, c, n); }
  }

  /** The first commit or rollback after step `i` is at `l`. */
  ghost predicate FirstAt(kinds: seq<Kind>, i: nat, l: nat) {
    i < l < |kinds| && !kinds[l].Plain? && forall m | i < m < l :: kinds[m].Plain?
  }

  /** It decides: a commit keeps what was pending for good, a rollback undoes it. */
  lemma FirstDecides(kinds: seq<Kind>, i: nat, c: nat, l: nat, n: nat)
    requires FirstAt(kinds, i, l) && i <= c < l < n
    ensures kinds[l].Commits? ==> Committed(kinds, c, n) && !Undone(kinds, c, n)
    ensures kinds[l].RollsBack? ==> Undone(kinds, c, n)
  {
    if kinds[l].Commits? {
      forall m | c < m < n && m < |kinds| && kinds[m].RollsBack? ensures Committed(kinds, c, m) {
        assert c < l < m && kinds[l].Commits?;
      }
      assert 0 <= c < l < n;
    } else {
      assert !Committed(kinds, c, l);
      assert 0 <= c < l < n;
    }
  }

  // ---- The fate of a fact ----

  /** A fact along a run: which steps set it, and whether it holds in what is
      pending and in what is durable; None where there is no row to show it. */
  datatype Story = Story(kinds: seq<Kind>, sets: seq<bool>, pending: seq<Option<bool>>, durable: seq<Option<bool>>)
  {
    predicate Shaped() {
      |sets| == |kinds| && |pending| == |kinds| + 1 && |durable| == |kinds| + 1
    }
  }

  /** A row keeps the fact or gets it; a new row has it only if just set, and
      comes before any setting. */
  predicate Carries(a: Option<bool>, b: Option<bool>, set_: bool, unset: bool) {
    b.Some? ==> if a.Some? then b.value == (a.value || set_) else b.value == set_ && unset
  }

  ghost predicate Moves(st: Story, j: nat)
    requires st.Shaped() && j < |st.kinds|
  {
    && (st.kinds[j].RollsBack? ==> !st.sets[j] && st.pending[j + 1] == st.durable[j])
    && (!st.kinds[j].RollsBack? ==>
          Carries(st.pending[j], st.pending[j + 1], st.sets[j], forall p | 0 <= p < j :: !st.sets[p]))
    && (st.kinds[j].Commits? ==> !st.sets[j])
    && st.durable[j + 1] == if st.kinds[j].Commits? then st.pending[j + 1] else st.durable[j]
  }

  /** The same of the values at one step. */
  predicate ValuesMove(kind: Kind, set_: bool, p: Option<bool>, p': Option<bool>, d: Option<bool>, d': Option<bool>) {
    && (kind.RollsBack? ==> !set_ && p' == d)
    && (!kind.RollsBack? && p'.Some? ==> p'.value == (set_ || (p.Some? && p.value)))
    && (kind.Commits? ==> !set_)
    && d' == if kind.Commits? then p' else d
  }

  lemma MovesByValues(st: Story, j: nat, kind: Kind, set_: bool,
                      p: Option<bool>, p': Option<bool>, d: Option<bool>, d': Option<bool>)
    requires st.Shaped() && j < |st.kinds| && st.kinds[j] == kind && st.sets[j] == set_
    requires st.pending[j] == p && st.pending[j + 1] == p' && st.durable[j] == d && st.durable[j + 1] == d'
    requires ValuesMove(kind, set_, p, p', d, d')
    requires !kind.RollsBack? && p.None? && p'.Some? ==> forall q | 0 <= q < j :: !st.sets[q]
    ensures Moves(st, j)
  {
  }

  ghost predicate Coherent(st: Story) {
    && st.Shaped() && st.pending[0] != Some(true) && st.durable[0] != Some(true)
    && forall j: nat | j < |st.kinds| :: Moves(st, j)
  }

  /** The setting at step `p` is in force at moment `j`. */
  ghost predicate Stands(st: Story, p: nat, j: nat)
    requires st.Shaped()
  {
    p < j && p < |st.kinds| && st.sets[p] && !Undone(st.kinds, p, j)
  }

  ghost predicate StandsForGood(st: Story, p: nat, j: nat)
    requires st.Shaped()
  {
    Stands(st, p, j) && Committed(st.kinds, p, j)
  }

  ghost predicate OneStands(st: Story, j: nat)
    requires st.Shaped()
  {
    exists p: nat :: Stands(st, p, j)
  }

  ghost predicate OneStandsForGood(st: Story, j: nat)
    requires st.Shaped()
  {
    exists p: nat :: StandsForGood(st, p, j)
  }

  lemma StandsOneOn(st: Story, p: nat, j: nat)
    requires Coherent(st) && j < |st.kinds|
    ensures Stands(st, p, j + 1) <==>
            || (p == j && st.sets[j])
            || (Stands(st, p, j) && (st.kinds[j].RollsBack? ==> StandsForGood(st, p, j)))
    ensures StandsForGood(st, p, j + 1) <==>
            Stands(st, p, j + 1) && p < j && (Committed(st.kinds, p, j) || st.kinds[j].Commits?)
  {
    if p < j { OneStepOn(st.kinds, p, j); }
  }

  lemma StandingOneOn(st: Story, j: nat)
    requires Coherent(st) && j < |st.kinds|
    ensures OneStands(st, j + 1) <==>
            st.sets[j] || (if st.kinds[j].RollsBack? then OneStandsForGood(st, j) else OneStands(st, j))
    ensures OneStandsForGood(st, j + 1) <==>
            if st.kinds[j].Commits? then OneStands(st, j) else OneStandsForGood(st, j)
  {
    var next := j + 1;
    assert Moves(st, j);
    forall p: nat
      ensures Stands(st, p, next) <==>
              || (p == j && st.sets[j])
              || (Stands(st, p, j) && (st.kinds[j].RollsBack? ==> StandsForGood(st, p, j)))
      ensures StandsForGood(st, p, next) <==>
              Stands(st, p, next) && p < j && (Committed(st.kinds, p, j) || st.kinds[j].Commits?)
    {
      StandsOneOn(st, p, j);
    }
    assert st.sets[j] ==> Stands(st, j, next);
    if OneStands(st, j) {
      var p: nat :| Stands(st, p, j);
      assert !st.kinds[j].RollsBack? ==> Stands(st, p, next);
      assert st.kinds[j].Commits? ==> StandsForGood(st, p, next);
    }
    if OneStandsForGood(st, j) {
      var p: nat :| StandsForGood(st, p, j);
      assert Stands(st, p, next) && StandsForGood(st, p, next);
    }
    if OneStands(st, next) {
      var p: nat :| Stands(st, p, next);
      assert p == j || (Stands(st, p, j) && (st.kinds[j].RollsBack? ==> StandsForGood(st, p, j)));
    }
    if OneStandsForGood(st, next) {
      var p: nat :| StandsForGood(st, p, next);
      assert Stands(st, p, j) && (st.kinds[j].Commits? || StandsForGood(st, p, j));
    }
  }

  /** Wherever there is a row to show it, the fact holds exactly when some setting
      of it stands: no rollback came between it and the first commit after it. It
      holds durably exactly when one stands and was committed. */
  lemma {:induction false} HoldsIffOneStands(st: Story, j: nat)
    requires Coherent(st) && j <= |st.kinds|
    ensures st.pending[j].Some? ==> (st.pending[j].value <==> OneStands(st, j))
    ensures st.durable[j].Some? ==> (st.durable[j].value <==> OneStandsForGood(st, j))
  {
    if j > 0 {
      HoldsIffOneStands(st, j - 1);
      StandingOneOn(st, j - 1);
      assert Moves(st, j - 1);
      if st.pending[j - 1].None? && !st.kinds[j - 1].RollsBack? && st.pending[j].Some? {
        assert !OneStands(st, j - 1);
      }
    }
  }
}

/** The check of the output against the stream plan. */
module StreamCheck {
  import opened StreamPlan

  /** What tells real loss from a muxer's rewrite. */
  datatype Key = Key(kind: Kind, codec: Codec, language: Language, picture: bool, forced: bool)

  /** The iterator test: each promised key is looked for in what is left. */
  predicate CoversInOrder(promised: seq<Key>, produced: seq<Key>)
    decreases |produced|
  {
    || promised == []
    || (produced != [] &&
        CoversInOrder(if produced[0] == promised[0] then promised[1..] else promised, produced[1..]))
  }

  /** `at[i]` is where promised stream `i` is found. */
  ghost predicate Found(promised: seq<Key>, produced: seq<Key>, at: seq<nat>) {
    |at| == |promised| && forall i | 0 <= i < |at| :: at[i] < |produced| && produced[at[i]] == promised[i]
  }

  ghost predicate Increasing(at: seq<nat>) {
    forall i, j | 0 <= i < j < |at| :: at[i] < at[j]
  }

  ghost predicate Injective(at: seq<nat>) {
    forall i, j | 0 <= i < j < |at| :: at[i] != at[j]
  }

  /** The greedy test holds exactly when promised embeds in produced in order. */
  lemma CoversIffEmbeds(promised: seq<Key>, produced: seq<Key>)
    ensures CoversInOrder(promised, produced) <==> exists at :: Found(promised, produced, at) && Increasing(at)
  {
    if CoversInOrder(promised, produced) { var at := Embedding(promised, produced); }
    if at :| Found(promised, produced, at) && Increasing(at) { GreedyFindsIt(promised, produced, at); }
  }

  lemma {:induction false} Embedding(promised: seq<Key>, produced: seq<Key>) returns (at: seq<nat>)
    requires CoversInOrder(promised, produced)
    ensures Found(promised, produced, at) && Increasing(at)
    decreases |produced|
  {
    if promised == [] {
      at := [];
    } else if produced[0] == promised[0] {
      var rest := Embedding(promised[1..], produced[1..]);
      at := [0] + Shifted(rest);
      FoundAtOnce(promised, produced, rest);
    } else {
      var rest := Embedding(promised, produced[1..]);
      at := Shifted(rest);
    }
  }

  lemma FoundAtOnce(promised: seq<Key>, produced: seq<Key>, rest: seq<nat>)
    requires promised != [] && produced != [] && produced[0] == promised[0]
    requires Found(promised[1..], produced[1..], rest) && Increasing(rest)
    ensures Found(promised, produced, [0] + Shifted(rest)) && Increasing([0] + Shifted(rest))
  {
    var at := [0] + Shifted(rest);
    forall i | 0 <= i < |at| ensures at[i] < |produced| && produced[at[i]] == promised[i] {
      if i > 0 { assert rest[i - 1] < |produced| - 1; }
    }
    forall i, j | 0 <= i < j < |at| ensures at[i] < at[j] {
      if i > 0 { assert rest[i - 1] < rest[j - 1]; }
    }
  }

  function Shifted(at: seq<nat>): (r: seq<nat>)
    ensures |r| == |at| && forall i | 0 <= i < |at| :: r[i] == at[i] + 1
  {
    seq(|at|, i requires 0 <= i < |at| => at[i] + 1)
  }

  /** Taking the first match loses nothing. */
  lemma {:induction false} GreedyFindsIt(promised: seq<Key>, produced: seq<Key>, at: seq<nat>)
    requires Found(promised, produced, at) && Increasing(at)
    ensures CoversInOrder(promised, produced)
    decreases |produced|
  {
    if promised != [] {
      assert at[0] < |produced|;
      if produced[0] == promised[0] {
        var back := seq(|at| - 1, i requires 0 <= i < |at| - 1 => (at[i + 1] - 1) as nat);
        GreedyFindsIt(promised[1..], produced[1..], back);
      } else {
        var back := seq(|at|, i requires 0 <= i < |at| => (at[i] - 1) as nat);
        GreedyFindsIt(promised, produced[1..], back);
      }
    }
  }

  datatype OutputVerdict = CarriesAll | Lost(positions: seq<nat>) | OutOfOrder

  function KeysAt(promised: seq<Key>, positions: seq<nat>): seq<Key>
    requires forall i | 0 <= i < |positions| :: positions[i] < |promised|
  {
    seq(|positions|, i requires 0 <= i < |positions| => promised[positions[i]])
  }

  /** One key more promised: it is still there, or it is lost. */
  lemma CountDown(produced: multiset<Key>, promised: multiset<Key>, key: Key)
    ensures (produced - promised)[key] > 0 ==>
              && (produced - promised) - multiset{key} == produced - (promised + multiset{key})
              && (promised + multiset{key}) - produced == promised - produced
    ensures (produced - promised)[key] == 0 ==>
              && produced - promised == produced - (promised + multiset{key})
              && (promised + multiset{key}) - produced == (promised - produced) + multiset{key}
  {
  }

  lemma OneMorePromised(promised: seq<Key>, lost: seq<nat>, i: nat)
    requires i < |promised| && forall k | 0 <= k < |lost| :: lost[k] < i
    ensures multiset(promised[..i + 1]) == multiset(promised[..i]) + multiset{promised[i]}
    ensures multiset(KeysAt(promised, lost + [i])) == multiset(KeysAt(promised, lost)) + multiset{promised[i]}
  {
    assert promised[..i + 1] == promised[..i] + [promised[i]];
    assert KeysAt(promised, lost + [i]) == KeysAt(promised, lost) + [promised[i]];
  }

  /** After the first `i` promised keys. */
  ghost predicate Tallied(promised: seq<Key>, produced: seq<Key>, i: nat, lost: seq<nat>, remaining: multiset<Key>) {
    && i <= |promised| && (forall k | 0 <= k < |lost| :: lost[k] < i)
    && remaining == multiset(produced) - multiset(promised[..i])
    && multiset(KeysAt(promised, lost)) == multiset(promised[..i]) - multiset(produced)
  }

  lemma TallyOneOn(promised: seq<Key>, produced: seq<Key>, i: nat, lost: seq<nat>, remaining: multiset<Key>)
    requires i < |promised| && Tallied(promised, produced, i, lost, remaining)
    ensures if remaining[promised[i]] > 0
            then Tallied(promised, produced, i + 1, lost, remaining - multiset{promised[i]})
            else Tallied(promised, produced, i + 1, lost + [i], remaining)
  {
    CountDown(multiset(produced), multiset(promised[..i]), promised[i]);
    OneMorePromised(promised, lost, i);
  }

  /** The promised streams that are simply not there, as a multiset difference. */
  method Shortfall(promised: seq<Key>, produced: seq<Key>) returns (lost: seq<nat>)
    ensures forall i | 0 <= i < |lost| :: lost[i] < |promised|
    ensures multiset(KeysAt(promised, lost)) == multiset(promised) - multiset(produced)
  {
    var remaining := multiset(produced);
    lost := [];
    for i := 0 to |promised|
      invariant Tallied(promised, produced, i, lost, remaining)
    {
      TallyOneOn(promised, produced, i, lost, remaining);
      if remaining[promised[i]] > 0 {
        remaining := remaining - multiset{promised[i]};
      } else {
        lost := lost + [i];
      }
    }
    assert promised[..|promised|] == promised;
  }

  /** The output is accepted exactly when the promise embeds in it. Otherwise the
      streams reported lost are the multiset difference, and when that is empty
      the output is a pure reordering. */
  method VerifyInventory(promised: seq<Key>, produced: seq<Key>) returns (v: OutputVerdict)
    ensures v.CarriesAll? <==> exists at :: Found(promised, produced, at) && Increasing(at)
    ensures v.Lost? ==>
              && v.positions != [] && (forall i | 0 <= i < |v.positions| :: v.positions[i] < |promised|)
              && multiset(KeysAt(promised, v.positions)) == multiset(promised) - multiset(produced)
    ensures v.OutOfOrder? <==> !v.CarriesAll? && multiset(promised) <= multiset(produced)
  {
    CoversIffEmbeds(promised, produced);
    if CoversInOrder(promised, produced) {
      return CarriesAll;
    }
    var lost := Shortfall(promised, produced);
    NoneMissing(multiset(promised), multiset(produced));
    assert lost != [] ==> KeysAt(promised, lost)[0] in multiset(KeysAt(promised, lost));
    return if lost == [] then OutOfOrder else Lost(lost);
  }

  lemma NoneMissing(promised: multiset<Key>, produced: multiset<Key>)
    ensures promised - produced == multiset{} <==> promised <= produced
  {
    if promised - produced == multiset{} {
      forall key ensures promised[key] <= produced[key] { assert (promised - produced)[key] == 0; }
    }
  }

  /** Nothing lost after a failed test: every promised stream has a place of its
      own in the output, and no such placement is in order. */
  lemma OutOfOrderIsAReordering(promised: seq<Key>, produced: seq<Key>) returns (at: seq<nat>)
    requires multiset(promised) <= multiset(produced) && !CoversInOrder(promised, produced)
    ensures Found(promised, produced, at) && Injective(at)
    ensures !exists b :: Found(promised, produced, b) && Increasing(b)
  {
    CoversIffEmbeds(promised, produced);
    at := Placement(promised, produced);
  }

  lemma {:induction false} Placement(promised: seq<Key>, produced: seq<Key>) returns (at: seq<nat>)
    requires multiset(promised) <= multiset(produced)
    ensures Found(promised, produced, at) && Injective(at)
    decreases |promised|
  {
    if promised == [] {
      at := [];
    } else {
      var k := PlaceOf(promised[0], promised, produced);
      var others := produced[..k] + produced[k + 1..];
      TakeOut(promised, produced, k);
      var rest := Placement(promised[1..], others);
      at := [k] + Skipping(rest, k);
      PlaceOne(promised, produced, k, rest);
    }
  }

  lemma PlaceOf(key: Key, promised: seq<Key>, produced: seq<Key>) returns (k: nat)
    requires key in promised && multiset(promised) <= multiset(produced)
    ensures k < |produced| && produced[k] == key
  {
    assert multiset(promised)[key] > 0;
    assert key in multiset(produced);
    k :| 0 <= k < |produced| && produced[k] == key;
  }

  lemma PlaceOne(promised: seq<Key>, produced: seq<Key>, k: nat, rest: seq<nat>)
    requires promised != [] && k < |produced| && produced[k] == promised[0]
    requires Found(promised[1..], produced[..k] + produced[k + 1..], rest) && Injective(rest)
    ensures Found(promised, produced, [k] + Skipping(rest, k)) && Injective([k] + Skipping(rest, k))
  {
    var at := [k] + Skipping(rest, k);
    forall i | 0 <= i < |at| ensures at[i] < |produced| && produced[at[i]] == promised[i] {
      if i > 0 { assert rest[i - 1] < |produced| - 1; }
    }
    forall i, j | 0 <= i < j < |at| ensures at[i] != at[j] {
      if i > 0 { assert rest[i - 1] != rest[j - 1]; }
    }
  }

  lemma TakeOut(promised: seq<Key>, produced: seq<Key>, k: nat)
    requires promised != [] && k < |produced| && produced[k] == promised[0] && multiset(promised) <= multiset(produced)
    ensures multiset(promised[1..]) <= multiset(produced[..k] + produced[k + 1..])
  {
    assert promised == [promised[0]] + promised[1..];
    assert produced == produced[..k] + [produced[k]] + produced[k + 1..];
    assert multiset(produced) == multiset(produced[..k] + produced[k + 1..]) + multiset{promised[0]};
    assert multiset(promised) == multiset(promised[1..]) + multiset{promised[0]};
    forall x ensures multiset(promised[1..])[x] <= multiset(produced[..k] + produced[k + 1..])[x] {
      assert multiset(promised)[x] <= multiset(produced)[x];
    }
  }

  /** Positions in a sequence from positions in it without element `k`. */
  function Skipping(at: seq<nat>, k: nat): (r: seq<nat>)
    ensures |r| == |at| && forall i | 0 <= i < |at| :: r[i] == if at[i] < k then at[i] else at[i] + 1
  {
    seq(|at|, i requires 0 <= i < |at| => if at[i] < k then at[i] else at[i] + 1)
  }

  // ---- From the source to the output ----

  function KeyOf(p: Planned): Key {
    Key(p.kind, p.codec, p.language, p.picture, p.forced)
  }

  function Promised(plan: Plan): seq<Key> {
    seq(|plan.kept|, i requires 0 <= i < |plan.kept| => KeyOf(plan.kept[i]))
  }

  /** When the output check passes, every source stream that is not of a kind to be
      dropped is in the output at a place of its own, in the planned order, with its
      own attributes; the first real video stream with the target codec. */
  lemma NothingSilentlyLost(inventory: seq<Stream>, target: Codec, dropSubtitles: seq<int>, produced: seq<Key>,
                            i: nat)
      returns (k: nat, at: seq<nat>)
    requires DistinctIndexes(inventory) && i < |inventory|
    requires CoversInOrder(Promised(PlanStreams(inventory, target, dropSubtitles)), produced)
    ensures var plan, s := PlanStreams(inventory, target, dropSubtitles), inventory[i];
            && Found(Promised(plan), produced, at) && Increasing(at)
            && (IsFirstVideo(inventory, i) ==>
                  |at| > 0 && produced[at[0]] == Key(s.kind, target, s.language, s.picture, s.forced))
            && (!IsFirstVideo(inventory, i) && !s.kind.Data? && !s.kind.Unidentified? &&
                !(s.kind.Subtitle? && SubtitleNumber(inventory, i) in dropSubtitles) ==>
                  k < |at| && produced[at[k]] == Key(s.kind, s.codec, s.language, s.picture, s.forced))
  {
    at := Embedding(Promised(PlanStreams(inventory, target, dropSubtitles)), produced);
    k := PlanByKind(inventory, target, dropSubtitles, i);
  }
}

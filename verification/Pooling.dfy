/** Pooling of per-frame scores: mean, fifth percentile by nearest rank, minimum. */
module Pooling {
  import opened Multiples

  datatype Pooled = Pooled(mean: real, perc5: real, min: real)

  function Insert(x: real, s: seq<real>): seq<real> {
    if s == [] || x <= s[0] then [x] + s else [s[0]] + Insert(x, s[1..])
  }

  /** `sorted(scores)`. */
  function Ordered(s: seq<real>): (r: seq<real>)
    ensures |r| == |s|
  {
    if s == [] then [] else InsertLength(s[0], Ordered(s[1..])); Insert(s[0], Ordered(s[1..]))
  }

  function Sum(s: seq<real>): real {
    if s == [] then 0.0 else s[0] + Sum(s[1..])
  }

  /** How many frames score at least `x`. */
  function AtLeast(s: seq<real>, x: real): nat {
    if s == [] then 0 else (if s[0] >= x then 1 else 0) + AtLeast(s[1..], x)
  }

  /** How many frames score at most `x`. */
  function AtMost(s: seq<real>, x: real): nat {
    if s == [] then 0 else (if s[0] <= x then 1 else 0) + AtMost(s[1..], x)
  }

  function RankOf(n: nat): nat
    requires n > 0
  {
    (n - 1) / 20
  }

  function Pool(scores: seq<real>): Pooled
    requires scores != []
  {
    var ordered := Ordered(scores);
    Pooled(Sum(ordered) / (|ordered| as real), ordered[RankOf(|ordered|)], ordered[0])
  }

  // ---- Sorting changes nothing that is counted or summed ----

  lemma {:induction false} InsertLength(x: real, s: seq<real>)
    ensures |Insert(x, s)| == |s| + 1
  {
    if s != [] { InsertLength(x, s[1..]); }
  }

  ghost predicate Ascending(s: seq<real>) {
    forall i, j | 0 <= i < j < |s| :: s[i] <= s[j]
  }

  lemma {:induction false} InsertAscending(x: real, s: seq<real>)
    requires Ascending(s)
    ensures Ascending(Insert(x, s))
    ensures forall y | y in Insert(x, s) :: y == x || y in s
  {
    if s != [] && x > s[0] {
      InsertAscending(x, s[1..]);
      var rest := Insert(x, s[1..]);
      forall i | 0 <= i < |rest| ensures s[0] <= rest[i] { assert rest[i] in rest; }
    }
  }

  lemma {:induction false} InsertTotals(x: real, s: seq<real>, y: real)
    ensures Sum(Insert(x, s)) == x + Sum(s)
    ensures AtLeast(Insert(x, s), y) == (if x >= y then 1 else 0) + AtLeast(s, y)
    ensures AtMost(Insert(x, s), y) == (if x <= y then 1 else 0) + AtMost(s, y)
    ensures multiset(Insert(x, s)) == multiset{x} + multiset(s)
  {
    if s == [] || x <= s[0] {
      assert ([x] + s)[1..] == s;
    } else {
      InsertTotals(x, s[1..], y);
      assert ([s[0]] + Insert(x, s[1..]))[1..] == Insert(x, s[1..]);
      assert s == [s[0]] + s[1..];
    }
  }

  lemma {:induction false} OrderedTotals(s: seq<real>, y: real)
    ensures Sum(Ordered(s)) == Sum(s)
    ensures AtLeast(Ordered(s), y) == AtLeast(s, y) && AtMost(Ordered(s), y) == AtMost(s, y)
  {
    if s != [] {
      OrderedTotals(s[1..], y);
      InsertTotals(s[0], Ordered(s[1..]), y);
    }
  }

  lemma {:induction false} OrderedPermutes(s: seq<real>)
    ensures Ascending(Ordered(s)) && multiset(Ordered(s)) == multiset(s)
  {
    if s != [] {
      OrderedPermutes(s[1..]);
      InsertAscending(s[0], Ordered(s[1..]));
      InsertTotals(s[0], Ordered(s[1..]), 0.0);
      assert s == [s[0]] + s[1..];
    }
  }

  /** `Ordered` is the sorted permutation. */
  lemma OrderedIsSorted(s: seq<real>, y: real)
    ensures Ascending(Ordered(s)) && multiset(Ordered(s)) == multiset(s)
    ensures Sum(Ordered(s)) == Sum(s)
    ensures AtLeast(Ordered(s), y) == AtLeast(s, y) && AtMost(Ordered(s), y) == AtMost(s, y)
  {
    OrderedPermutes(s);
    OrderedTotals(s, y);
  }

  // ---- Bounds ----

  lemma {:induction false} SumIsAtLeast(s: seq<real>, k: nat, low: real, high: real)
    requires k <= |s| && low <= high
    requires forall i | 0 <= i < |s| :: s[i] >= if i < k then low else high
    ensures Sum(s) >= Times(k, low) + Times(|s| - k, high)
  {
    if s != [] {
      SumIsAtLeast(s[1..], if k > 0 then k - 1 else 0, low, high);
    }
  }

  lemma {:induction false} TailIsAtLeast(s: seq<real>, k: nat)
    requires k < |s| && Ascending(s)
    ensures AtLeast(s, s[k]) >= |s| - k
    decreases |s|
  {
    AllAtLeast(s, k, s[k]);
  }

  lemma {:induction false} AllAtLeast(s: seq<real>, k: nat, x: real)
    requires k <= |s| && forall i | k <= i < |s| :: s[i] >= x
    ensures AtLeast(s, x) >= |s| - k
  {
    if s != [] { AllAtLeast(s[1..], if k > 0 then k - 1 else 0, x); }
  }

  lemma HeadIsAtMost(s: seq<real>, k: nat)
    requires k < |s| && Ascending(s)
    ensures AtMost(s, s[k]) >= k + 1
  {
    AllAtMost(s, k + 1, s[k]);
  }

  lemma {:induction false} AllAtMost(s: seq<real>, k: nat, x: real)
    requires k <= |s| && forall i | 0 <= i < k :: s[i] <= x
    ensures AtMost(s, x) >= k
  {
    if k > 0 { AllAtMost(s[1..], k - 1, x); }
  }

  /** The minimum is below both; more than 95% of the frames score at least
      perc5, and at least a twentieth of the others, and one more, at most perc5;
      and perc5 exceeds the mean by at most a twentieth of its distance
      from the minimum. */
  lemma PoolBounds(scores: seq<real>)
    requires scores != []
    ensures var p := Pool(scores);
            && p.min in scores && p.perc5 in scores && (forall x | x in scores :: p.min <= x)
            && Times(|scores|, p.mean) == Sum(scores)
            && p.min <= p.perc5 && p.min <= p.mean
            && 20 * AtLeast(scores, p.perc5) > 19 * |scores| && AtMost(scores, p.perc5) >= (|scores| - 1) / 20 + 1
            && p.perc5 - p.mean <= (p.perc5 - p.min) / 20.0
  {
    OrderedHasTheSame(scores);
    PoolTail(scores);
    PoolHead(scores);
    PoolMean(scores);
  }

  lemma PoolTail(scores: seq<real>)
    requires scores != []
    ensures 20 * AtLeast(scores, Pool(scores).perc5) > 19 * |scores|
  {
    OrderedIsSorted(scores, Pool(scores).perc5);
    TailIsAtLeast(Ordered(scores), RankOf(|scores|));
  }

  lemma PoolHead(scores: seq<real>)
    requires scores != []
    ensures AtMost(scores, Pool(scores).perc5) >= (|scores| - 1) / 20 + 1
  {
    OrderedIsSorted(scores, Pool(scores).perc5);
    HeadIsAtMost(Ordered(scores), (|scores| - 1) / 20);
  }

  lemma PoolMean(scores: seq<real>)
    requires scores != []
    ensures var p := Pool(scores);
            && Times(|scores|, p.mean) == Sum(scores)
            && p.min <= p.perc5 && p.min <= p.mean && p.perc5 - p.mean <= (p.perc5 - p.min) / 20.0
  {
    var ordered, p := Ordered(scores), Pool(scores);
    OrderedIsSorted(scores, p.perc5);
    OrderedMean(ordered, RankOf(|ordered|), p.mean);
  }

  lemma OrderedMean(s: seq<real>, k: nat, mean: real)
    requires s != [] && Ascending(s) && k == (|s| - 1) / 20 && mean == Sum(s) / (|s| as real)
    ensures Times(|s|, mean) == Sum(s) && s[0] <= s[k] && s[0] <= mean && s[k] - mean <= (s[k] - s[0]) / 20.0
  {
    SumIsAtLeast(s, k, s[0], s[k]);
    MeanBound(|s|, k, s[0], s[k], Sum(s), mean);
  }

  lemma OrderedHasTheSame(scores: seq<real>)
    requires scores != []
    ensures forall x :: x in scores <==> x in Ordered(scores)
    ensures forall x | x in scores :: Ordered(scores)[0] <= x
  {
    OrderedIsSorted(scores, 0.0);
    var ordered := Ordered(scores);
    forall x ensures x in scores <==> x in ordered {
      assert x in multiset(scores) <==> x in multiset(ordered);
    }
    forall x | x in scores ensures ordered[0] <= x {
      var i :| 0 <= i < |ordered| && ordered[i] == x;
    }
  }

  lemma MeanBound(n: nat, k: nat, min: real, perc5: real, sum: real, mean: real)
    requires n > 0 && k == (n - 1) / 20 && min <= perc5 && mean == sum / (n as real)
    requires sum >= Times(k, min) + Times(n - k, perc5)
    ensures Times(n, mean) == sum && min <= mean && perc5 - mean <= (perc5 - min) / 20.0
  {
    TimesIsProduct(k, min);
    TimesIsProduct(n - k, perc5);
    TimesIsProduct(n, mean);
    ProductBound(n as real, k as real, min, perc5, mean);
  }

  lemma ProductBound(n: real, k: real, min: real, perc5: real, mean: real)
    requires n > 0.0 && 0.0 <= k && 20.0 * k <= n && min <= perc5
    requires n * mean >= k * min + (n - k) * perc5
    ensures min <= mean && perc5 - mean <= (perc5 - min) / 20.0
  {
    var behind, part := Deficit(n, k, min, perc5, mean);
    var most := SmallShare(n, k, perc5 - min, part);
    Cancel(n, perc5 - mean, (perc5 - min) / 20.0, behind, most);
  }

  lemma Deficit(n: real, k: real, min: real, perc5: real, mean: real) returns (behind: real, part: real)
    requires n * mean >= k * min + (n - k) * perc5
    ensures behind == n * (perc5 - mean) && part == k * (perc5 - min) && behind <= part
  {
    behind, part := n * (perc5 - mean), k * (perc5 - min);
    Distribute(n, perc5, mean);
    Distribute(k, perc5, min);
    Distribute(perc5, n, k);
  }

  lemma Distribute(x: real, y: real, z: real)
    ensures x * (y - z) == x * y - x * z
    ensures (y - z) * x == x * y - x * z
  {
  }

  lemma SmallShare(n: real, k: real, gap: real, part: real) returns (most: real)
    requires 20.0 * k <= n && gap >= 0.0 && part == k * gap
    ensures most == n * (gap / 20.0) && part <= most
  {
    most := n * (gap / 20.0);
    assert (n - 20.0 * k) * gap >= 0.0;
  }

  // ---- Percentile against mean ----

  function Repeat(x: real, n: nat): (s: seq<real>)
    ensures |s| == n && forall i | 0 <= i < n :: s[i] == x
  {
    seq(n, _ => x)
  }

  /** One black frame among perfect ones. */
  function OneBlackFrame(n: nat): (s: seq<real>)
    requires n > 0
    ensures |s| == n
  {
    [0.0] + Repeat(100.0, n - 1)
  }

  /** Up to twenty frames perc5 is the minimum, so it does not exceed the mean. */
  lemma ShortListsAreSafe(scores: seq<real>)
    requires 0 < |scores| <= 20
    ensures Pool(scores).perc5 <= Pool(scores).mean
  {
    PoolBounds(scores);
    assert RankOf(|Ordered(scores)|) == 0;
  }

  lemma {:induction false} SumOfRepeat(s: seq<real>, x: real)
    requires forall i | 0 <= i < |s| :: s[i] == x
    ensures Sum(s) == Times(|s|, x)
  {
    if s != [] { SumOfRepeat(s[1..], x); }
  }

  lemma {:induction false} OrderedIfAscending(s: seq<real>)
    requires Ascending(s)
    ensures Ordered(s) == s
  {
    if s != [] {
      OrderedIfAscending(s[1..]);
      assert s == [s[0]] + s[1..];
    }
  }

  lemma OneBlackFrameBreaks(n: nat)
    requires n > 20
    ensures var p := Pool(OneBlackFrame(n)); p.perc5 == 100.0 && p.mean < 100.0
  {
    var s := OneBlackFrame(n);
    OrderedIfAscending(s);
    assert RankOf(n) >= 1;
    assert s[1..] == Repeat(100.0, n - 1);
    SumOfRepeat(s[1..], 100.0);
    TimesIsProduct(n - 1, 100.0);
    BelowWhole(Sum(s), n);
  }

  lemma BelowWhole(sum: real, n: nat)
    requires n > 0 && sum < 100.0 * n as real
    ensures sum / (n as real) < 100.0
  {
    assert sum / (n as real) * (n as real) == sum;
  }

  /** "perc5 can never exceed the mean" is true of lists of `n` frames exactly
      when there are at most twenty of them. */
  lemma PercentileBelowMeanIff(n: nat)
    requires n > 0
    ensures (forall scores: seq<real> | |scores| == n :: Pool(scores).perc5 <= Pool(scores).mean) <==> n <= 20
  {
    if n <= 20 {
      forall scores: seq<real> | |scores| == n
        ensures Pool(scores).perc5 <= Pool(scores).mean
      {
        ShortListsAreSafe(scores);
      }
    } else {
      OneBlackFrameBreaks(n);
      assert |OneBlackFrame(n)| == n;
    }
  }
}

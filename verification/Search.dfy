/** The CRF search: a binary search for the largest quality number whose sample
    encodes still meet both VMAF bars, over any range and any scoring function. */
module Search {
  import opened Options

  datatype Score = Score(mean: real, perc5: real)

  datatype Result = Result(quality: int, predicted: Score)

  predicate Meets(s: Score, target: real, floor: real) {
    s.mean >= target && s.perc5 >= floor
  }

  function Log2(n: nat): nat {
    if n < 2 then 0 else 1 + Log2(n / 2)
  }

  function Pow2(k: nat): nat {
    if k == 0 then 1 else 2 * Pow2(k - 1)
  }

  /** `Log2` is the logarithm rounded down. */
  lemma {:induction false} Log2IsFloor(n: nat)
    requires n > 0
    ensures Pow2(Log2(n)) <= n < Pow2(Log2(n) + 1)
  {
    if n >= 2 { Log2IsFloor(n / 2); }
  }

  /** Halvings until nothing is left. */
  function Rounds(n: nat): nat {
    if n == 0 then 0 else Log2(n) + 1
  }

  lemma {:induction false} RoundsGrow(m: nat, n: nat)
    requires m <= n
    ensures Rounds(m) <= Rounds(n)
  {
    if m >= 2 { RoundsGrow(m / 2, n / 2); }
  }

  /** The loop keeps at most half of the range, and exactly half when the middle
      meets the bars. */
  lemma Halves(lo: int, hi: int)
    requires lo < hi
    ensures var mid := (lo + hi + 1) / 2;
            && lo < mid <= hi
            && hi - mid == (hi - lo) / 2
            && mid - 1 - lo <= (hi - lo) / 2
            && Rounds(hi - lo) == 1 + Rounds((hi - lo) / 2)
  {
  }

  ghost predicate DownwardClosed(low: int, high: int, score: int -> Score, target: real, floor: real) {
    forall p, q | low <= p <= q <= high && Meets(score(q), target, floor) :: Meets(score(p), target, floor)
  }

  ghost predicate AllMeet(low: int, high: int, score: int -> Score, target: real, floor: real) {
    forall q | low <= q <= high :: Meets(score(q), target, floor)
  }

  /** `probes` are the qualities encoded and measured, in order. */
  method FindQuality(low: int, high: int, score: int -> Score, target: real, floor: real)
    returns (best: Option<Result>, probes: seq<int>)
    // nothing is found exactly when the low end misses
    ensures best.None? <==> !Meets(score(low), target, floor)
    // what is found was probed, met both bars, and carries its own scores
    ensures best.Some? ==>
              && best.value.quality in probes && low <= best.value.quality
              && (low <= high ==> best.value.quality <= high)
              && best.value.predicted == score(best.value.quality)
              && Meets(best.value.predicted, target, floor)
    // its successor is out of range, or was probed and missed
    ensures best.Some? ==>
              var next := best.value.quality + 1;
              next > high || (next in probes && !Meets(score(next), target, floor))
    // it is the largest when meeting the bars is downward closed
    ensures best.Some? && DownwardClosed(low, high, score, target, floor) ==>
              forall q | low <= q <= high && Meets(score(q), target, floor) :: q <= best.value.quality
    // the number of probes, which a scoring function that always meets attains
    ensures |probes| <= if high > low then 2 + Log2(high - low) else 1
    ensures high > low && AllMeet(low, high, score, target, floor) ==> |probes| == 2 + Log2(high - low)
    ensures forall q | q in probes :: q == low || low < q <= high
  {
    var lo, hi := low, high;
    probes := [lo];
    var s := score(lo);
    if !Meets(s, target, floor) {
      return None, probes;
    }
    var found := Result(lo, s);
    while lo < hi
      invariant low <= lo && hi <= high && (low <= high ==> lo <= hi) && (high < low ==> lo == low && hi == high)
      invariant found.quality == lo && found.predicted == score(lo) && Meets(found.predicted, target, floor)
      invariant lo in probes
      invariant hi == high || (hi + 1 in probes && !Meets(score(hi + 1), target, floor))
      invariant hi >= lo ==> |probes| + Rounds(hi - lo) <= 1 + Rounds(if high > low then high - low else 0)
      invariant high <= low ==> |probes| == 1
      invariant high > low && AllMeet(low, high, score, target, floor) ==>
                  hi == high && |probes| + Rounds(hi - lo) == 1 + Rounds(high - low)
      invariant forall q | q in probes :: q == low || low < q <= high
      decreases hi - lo
    {
      Halves(lo, hi);
      var mid := (lo + hi + 1) / 2;
      RoundsGrow(mid - 1 - lo, (hi - lo) / 2);
      s := score(mid);
      probes := probes + [mid];
      if Meets(s, target, floor) {
        found := Result(mid, s);
        lo := mid;
      } else {
        hi := mid - 1;
      }
    }
    best := Some(found);
  }
}

/** The statistics block of a user's rating listing: the count, the integer
    sum behind the average, and the 1..5 histogram. */
module RatingStats {

  /** `ratings_only.count(v)`: the number of occurrences of `v`. */
  function Count(scores: seq<int>, v: int): (n: nat)
    ensures n <= |scores|
    ensures n == multiset(scores)[v]
  {
    if scores == [] then 0
    else
      assert scores == [scores[0]] + scores[1..];
      (if scores[0] == v then 1 else 0) + Count(scores[1..], v)
  }

  /** `sum(ratings_only)`. */
  function Sum(scores: seq<int>): int {
    if scores == [] then 0 else scores[0] + Sum(scores[1..])
  }

  predicate AllValid(scores: seq<int>) {
    forall i :: 0 <= i < |scores| ==> 1 <= scores[i] <= 5
  }

  const Buckets: set<int> := {1, 2, 3, 4, 5}

  /** `{i: ratings_only.count(i) for i in range(1, 6)}` (all zeros when there are no items). */
  function Distribution(scores: seq<int>): (d: map<int, nat>)
    ensures d.Keys == Buckets
    ensures forall k :: k in d ==> d[k] == Count(scores, k)
  {
    map k | k in Buckets :: Count(scores, k)
  }

  datatype Stats = Stats(total: nat, sum: int, distribution: map<int, nat>)

  function BucketTotal(d: map<int, nat>): nat
    requires Buckets <= d.Keys
  {
    d[1] + d[2] + d[3] + d[4] + d[5]
  }

  /** The statistics of a listing: all five buckets are always present and
      empty for no items; for scores in 1..5 the buckets add up to the count
      and the sum lies between one and five times the count. */
  function Statistics(scores: seq<int>): (s: Stats)
    ensures s.total == |scores|
    ensures s.distribution.Keys == Buckets
    ensures scores == [] ==> s.sum == 0 && forall k :: k in s.distribution ==> s.distribution[k] == 0
    ensures AllValid(scores) ==> BucketTotal(s.distribution) == s.total
    ensures AllValid(scores) ==> s.total <= s.sum <= 5 * s.total
  {
    BucketsPartition(scores);
    SumBounds(scores);
    Stats(|scores|, Sum(scores), Distribution(scores))
  }

  /** Every valid score falls in exactly one bucket. */
  lemma {:induction false} BucketsPartition(scores: seq<int>)
    ensures AllValid(scores) ==>
              Count(scores, 1) + Count(scores, 2) + Count(scores, 3) + Count(scores, 4) + Count(scores, 5) == |scores|
  {
    if scores != [] {
      BucketsPartition(scores[1..]);
    }
  }

  lemma {:induction false} SumBounds(scores: seq<int>)
    ensures AllValid(scores) ==> |scores| <= Sum(scores) <= 5 * |scores|
  {
    if scores != [] {
      SumBounds(scores[1..]);
    }
  }
}

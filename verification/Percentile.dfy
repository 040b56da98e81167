/** Percentiles of a log2 latency histogram, with `u64` saturating arithmetic. */
module Percentile {
  import opened Numbers

  function Saturate(x: nat): (r: nat) {
    if x <= U64_MAX then x else U64_MAX
  }

  /** `1u64 << i.min(63)`. */
  function BucketUs(i: nat): (r: nat) {
    Pow2(if i < 63 then i else 63)
  }

  /** The value of bucket `i`: one microsecond for the first, twice the one before for each further, and the
      highest bit of a 64-bit word from bucket 63 on. */
  lemma BucketValue(i: nat)
    ensures BucketUs(0) == 1
    ensures i < 63 ==> BucketUs(i + 1) == 2 * BucketUs(i)
    ensures i >= 63 ==> BucketUs(i) == 0x8000_0000_0000_0000
  {
    assert Pow2(0) == 1;
    assert Pow2(7) == 128;
    Pow2Sum(7, 7);
    Pow2Sum(14, 7);
    Pow2Sum(21, 21);
    Pow2Sum(42, 21);
  }

  /** How many samples the first `n` buckets hold. */
  function Sum(buckets: seq<nat>, n: nat): (r: nat)
    requires n <= |buckets|
  {
    if n == 0 then 0 else Sum(buckets, n - 1) + buckets[n - 1]
  }

  /** `count.saturating_mul(pct).div_ceil(100).max(1)`. */
  function Target(count: nat, pct: nat): (r: nat)
    ensures r >= 1
  {
    Hundredth(Saturate(count * pct))
  }

  /** `x.div_ceil(100).max(1)`. */
  function Hundredth(x: nat): (r: nat)
    ensures r >= 1 && x <= r * 100 && (x >= 1 ==> (r - 1) * 100 < x)
  {
    if x == 0 then 1 else (x + 99) / 100
  }

  /** The saturating running total over the first `n` buckets is at least the target. */
  predicate Reached(buckets: seq<nat>, n: nat, target: nat)
    requires n <= |buckets|
  {
    Saturate(Sum(buckets, n)) >= target
  }

  /** Bucket `i` is the first to reach the target, or the last bucket when none does. */
  ghost predicate Picks(buckets: seq<nat>, target: nat, i: nat) {
    && i < |buckets|
    && (forall n | 1 <= n <= i :: !Reached(buckets, n, target))
    && (Reached(buckets, i + 1, target) || i == |buckets| - 1)
  }

  ghost predicate IsPercentile(buckets: seq<nat>, count: nat, pct: nat, r: nat) {
    if count == 0 || buckets == [] then r == 0
    else exists i :: Picks(buckets, Target(count, pct), i) && r == BucketUs(i)
  }

  method PercentileUs(buckets: seq<nat>, count: nat, pct: nat) returns (r: nat)
    requires count <= U64_MAX && forall i | 0 <= i < |buckets| :: buckets[i] <= U64_MAX
    ensures IsPercentile(buckets, count, pct, r)
  {
    if count == 0 || |buckets| == 0 {
      return 0;
    }
    var target := Target(count, pct);
    var acc := 0;
    var i := 0;
    while i < |buckets|
      invariant 0 <= i <= |buckets|
      invariant acc == Saturate(Sum(buckets, i))
      invariant forall n | 1 <= n <= i :: !Reached(buckets, n, target)
    {
      acc := if acc + buckets[i] <= U64_MAX then acc + buckets[i] else U64_MAX;
      if acc >= target {
        assert Picks(buckets, target, i);
        return BucketUs(i);
      }
      i := i + 1;
    }
    assert Picks(buckets, target, |buckets| - 1);
    r := BucketUs(|buckets| - 1);
  }

  lemma TargetMonotone(count: nat, p: nat, q: nat)
    requires p <= q
    ensures Target(count, p) <= Target(count, q)
  {
    assert count * p <= count * q;
    HundredthMonotone(Saturate(count * p), Saturate(count * q));
  }

  lemma HundredthMonotone(x: nat, y: nat)
    requires x <= y
    ensures Hundredth(x) <= Hundredth(y)
  {
  }

  lemma NotReachedBefore(buckets: seq<nat>, target: nat, i: nat, n: nat)
    requires Picks(buckets, target, i) && 1 <= n <= i
    ensures !Reached(buckets, n, target)
  {
  }

  lemma PickOrder(buckets: seq<nat>, t: nat, u: nat, i: nat, j: nat)
    requires t <= u && Picks(buckets, t, i) && Picks(buckets, u, j)
    ensures i <= j
  {
    if j < i {
      NotReachedBefore(buckets, t, i, j + 1);
      assert false;
    }
  }

  /** For every histogram, consistent or not, saturated or not, a higher percentile is never a lower
      latency; in particular p50 is at most p99. */
  lemma PercentilesAreMonotone(buckets: seq<nat>, count: nat, p: nat, q: nat, rp: nat, rq: nat)
    requires p <= q && IsPercentile(buckets, count, p, rp) && IsPercentile(buckets, count, q, rq)
    ensures rp <= rq
  {
    if count != 0 && buckets != [] {
      TargetMonotone(count, p, q);
      var i: nat :| Picks(buckets, Target(count, p), i) && rp == BucketUs(i);
      var j: nat :| Picks(buckets, Target(count, q), j) && rq == BucketUs(j);
      PickOrder(buckets, Target(count, p), Target(count, q), i, j);
      Pow2Monotone(if i < 63 then i else 63, if j < 63 then j else 63);
    }
  }

  lemma {:induction false} SumMonotone(buckets: seq<nat>, a: nat, b: nat)
    requires a <= b <= |buckets|
    ensures Sum(buckets, a) <= Sum(buckets, b)
  {
    if a < b { SumMonotone(buckets, a, b - 1); }
  }

  /** In terms of the product alone, so that everything is linear. */
  lemma ShareReached(buckets: seq<nat>, count: nat, product: nat, i: nat)
    requires 1 <= product <= count * 100 && count <= U64_MAX
    requires Sum(buckets, |buckets|) == count
    requires Picks(buckets, Hundredth(product), i)
    ensures Exact(buckets, product, i)
  {
    var target := Hundredth(product);
    SumMonotone(buckets, i + 1, |buckets|);
    assert Sum(buckets, i + 1) >= target;
    forall n | 1 <= n <= i ensures Sum(buckets, n) * 100 < product {
      SumMonotone(buckets, n, |buckets|);
      NotReachedBefore(buckets, target, i, n);
    }
  }

  /** Bucket `i` is the least whose cumulative share reaches the percentile. */
  ghost predicate Exact(buckets: seq<nat>, product: nat, i: nat)
    requires i < |buckets|
  {
    && Sum(buckets, i + 1) * 100 >= product
    && forall n | 1 <= n <= i :: Sum(buckets, n) * 100 < product
  }

  /** The largest product whose hundredth, rounded up, is not cut down by the 64-bit saturation. */
  const EXACT_UP_TO: nat := 100 * Hundredth(U64_MAX)

  lemma SameHundredth(product: nat)
    requires product <= EXACT_UP_TO
    ensures Hundredth(Saturate(product)) == Hundredth(product)
  {
  }

  /** When the buckets add up to the count, the answer is the least bucket whose cumulative share reaches
      the percentile, and the fall-through never decides, as long as the product is within the bound. */
  lemma PercentileIsExact(buckets: seq<nat>, count: nat, pct: nat, i: nat)
    requires 0 < count <= U64_MAX && 1 <= pct <= 100 && count * pct <= EXACT_UP_TO
    requires Sum(buckets, |buckets|) == count
    requires Picks(buckets, Target(count, pct), i)
    ensures Exact(buckets, count * pct, i)
  {
    ProductBounds(count, pct);
    SameHundredth(count * pct);
    ShareReached(buckets, count, count * pct, i);
  }

  lemma ProductBounds(count: nat, pct: nat)
    requires count > 0 && 1 <= pct <= 100
    ensures 1 <= count * pct <= count * 100
  {
    assert count * (100 - pct) == count * 100 - count * pct;
    assert count * (pct - 1) == count * pct - count;
  }

  /** A histogram of two buckets, the first of which reaches the saturated target but not the share. */
  function Short(count: nat): (buckets: seq<nat>)
    requires count >= Hundredth(U64_MAX)
  {
    [Hundredth(U64_MAX), count - Hundredth(U64_MAX)]
  }

  lemma TooLowBeyond(count: nat, pct: nat)
    requires 0 < count <= U64_MAX && 1 <= pct <= 100 && count * pct > EXACT_UP_TO
    ensures count > Hundredth(U64_MAX)
    ensures Sum(Short(count), 2) == count && Picks(Short(count), Target(count, pct), 0)
    ensures !Exact(Short(count), count * pct, 0)
  {
    ProductBounds(count, pct);
    SumOfTwo(Hundredth(U64_MAX), count - Hundredth(U64_MAX));
    assert Target(count, pct) == Hundredth(U64_MAX);
  }

  lemma SumOfTwo(a: nat, b: nat)
    ensures Sum([a, b], 1) == a && Sum([a, b], 2) == a + b
  {
    assert Sum([a, b], 0) == 0;
  }

  /** Every histogram that adds up to the count is answered exactly. */
  ghost predicate AlwaysExact(count: nat, pct: nat) {
    forall buckets: seq<nat>, i: nat | Sum(buckets, |buckets|) == count && Picks(buckets, Target(count, pct), i) ::
      Exact(buckets, count * pct, i)
  }

  /** And the bound is the exact one. */
  lemma ExactIff(count: nat, pct: nat)
    requires 0 < count <= U64_MAX && 1 <= pct <= 100
    ensures AlwaysExact(count, pct) <==> count * pct <= EXACT_UP_TO
  {
    if count * pct <= EXACT_UP_TO {
      forall buckets: seq<nat>, i: nat | Sum(buckets, |buckets|) == count && Picks(buckets, Target(count, pct), i)
        ensures Exact(buckets, count * pct, i)
      {
        PercentileIsExact(buckets, count, pct, i);
      }
    } else {
      TooLowBeyond(count, pct);
      assert |Short(count)| == 2;
    }
  }
}

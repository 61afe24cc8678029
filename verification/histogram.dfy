/** The latency histogram: bucket counts against the samples they stand for. Samples
    are whole microseconds, bounds and reported values milliseconds. */
module Histogram {
  import Arith

  const BOUNDS: seq<int> := [
    1, 2, 3, 5, 8, 13, 21, 34, 55, 89,
    144, 233, 377, 610, 1000, 1600, 2600, 4200, 6800, 10000,
    16000, 26000, 42000, 60000
  ]

  /** `math.Round` of a non-negative number of microseconds, in milliseconds. */
  function RoundMs(us: nat): nat {
    (us + 500) / 1000
  }

  /** How many samples are at most `limit` milliseconds. */
  function AtMost(samples: seq<nat>, limit: int): nat {
    if samples == [] then 0
    else AtMost(samples[..|samples| - 1], limit) + (if samples[|samples| - 1] <= 1000 * limit then 1 else 0)
  }

  function Max(samples: seq<nat>): nat {
    if samples == [] then 0
    else
      var m := Max(samples[..|samples| - 1]);
      if samples[|samples| - 1] > m then samples[|samples| - 1] else m
  }

  function Sum(counts: seq<nat>): nat {
    if counts == [] then 0 else Sum(counts[..|counts| - 1]) + counts[|counts| - 1]
  }

  /** Half a millisecond either way, halves upward. */
  lemma RoundIsNearest(us: nat)
    ensures 1000 * RoundMs(us) - 500 <= us < 1000 * RoundMs(us) + 500
  {
  }

  lemma {:induction false} MaxIsGreatest(samples: seq<nat>)
    requires samples != []
    ensures Max(samples) in samples && forall x :: x in samples ==> x <= Max(samples)
  {
    if |samples| > 1 {
      MaxIsGreatest(samples[..|samples| - 1]);
    } else {
      assert samples[..0] == [];
    }
    assert samples == samples[..|samples| - 1] + [samples[|samples| - 1]];
  }

  lemma {:induction false} MinIsLeast(samples: seq<nat>)
    requires samples != []
    ensures Min(samples) in samples && forall x :: x in samples ==> Min(samples) <= x
  {
    if |samples| > 1 { MinIsLeast(samples[..|samples| - 1]); }
    assert samples == samples[..|samples| - 1] + [samples[|samples| - 1]];
  }

  /** `math.Round` of the mean of `n` samples with this total of microseconds. */
  function MeanMs(sum: nat, n: nat): int
    requires 0 < n
  {
    (sum + 500 * n) / (1000 * n)
  }

  /** Half a millisecond either way, halves upward. */
  lemma MeanIsNearest(sum: nat, n: nat)
    requires 0 < n
    ensures 1000 * n * MeanMs(sum, n) - 500 * n <= sum < 1000 * n * MeanMs(sum, n) + 500 * n
  {
    var d, m := 1000 * n, MeanMs(sum, n);
    assert sum + 500 * n == d * m + (sum + 500 * n) % d;
  }

  lemma {:induction false} SumBetween(samples: seq<nat>)
    requires samples != []
    ensures |samples| * Min(samples) <= Sum(samples) <= |samples| * Max(samples)
  {
    if |samples| > 1 {
      var rest, last := samples[..|samples| - 1], samples[|samples| - 1];
      SumBetween(rest);
      OneMore(|rest|, Min(rest), Sum(rest), Max(rest), last, Min(samples), Max(samples));
    } else {
      assert samples[..0] == [] && Sum(samples) == samples[0];
    }
  }

  lemma OneMore(n: nat, min: nat, sum: nat, max: nat, x: nat, min': nat, max': nat)
    requires n * min <= sum <= n * max && min' <= min && min' <= x && max <= max' && x <= max'
    ensures (n + 1) * min' <= sum + x <= (n + 1) * max'
  {
    Arith.Scale(n, min', min);
    Arith.Scale(n, max, max');
    assert (n + 1) * min' == n * min' + min' && (n + 1) * max' == n * max' + max';
  }

  /** The reported mean lies between the reported minimum and maximum. */
  lemma MeanBetween(samples: seq<nat>)
    requires samples != []
    ensures RoundMs(Min(samples)) <= MeanMs(Sum(samples), |samples|) <= RoundMs(Max(samples))
  {
    SumBetween(samples);
    var n, sum, m := |samples|, Sum(samples), MeanMs(Sum(samples), |samples|);
    MeanIsNearest(sum, n);
    Squeeze(n, Min(samples), sum, Max(samples), m);
  }

  lemma Squeeze(n: nat, min: nat, sum: nat, max: nat, m: int)
    requires 0 < n && n * min <= sum <= n * max
    requires 1000 * n * m - 500 * n <= sum < 1000 * n * m + 500 * n
    ensures RoundMs(min) <= m <= RoundMs(max)
  {
    assert n * min < n * (1000 * m + 500);
    assert n * (1000 * m - 500) <= n * max;
    if 1000 * m + 500 <= min { Arith.Scale(n, 1000 * m + 500, min); }
    if max < 1000 * m - 500 { Arith.Scale(n, max + 1, 1000 * m - 500); }
  }

  lemma {:induction false} SumBumped(counts: seq<nat>, i: nat, n: nat)
    requires i < |counts| && n <= |counts|
    ensures Sum(counts[i := counts[i] + 1][..n]) == Sum(counts[..n]) + (if i < n then 1 else 0)
    decreases n
  {
    if n > 0 {
      var c' := counts[i := counts[i] + 1];
      assert counts[..n][..n - 1] == counts[..n - 1] && c'[..n][..n - 1] == c'[..n - 1];
      SumBumped(counts, i, n - 1);
    }
  }

  lemma {:induction false} AtMostBounded(samples: seq<nat>, limit: int)
    ensures AtMost(samples, limit) <= |samples|
    ensures AtMost(samples, limit) < |samples| ==> 1000 * limit < Max(samples)
  {
    if samples != [] { AtMostBounded(samples[..|samples| - 1], limit); }
  }

  function Within(samples: seq<nat>, limit: int): set<nat> {
    set i: nat | i < |samples| && samples[i] <= 1000 * limit
  }

  lemma {:induction false} AtMostIsNumber(samples: seq<nat>, limit: int)
    ensures AtMost(samples, limit) == |Within(samples, limit)|
  {
    if samples != [] {
      var n := |samples| - 1;
      AtMostIsNumber(samples[..n], limit);
      assert Within(samples[..n], limit) == Within(samples, limit) - {n};
      Arith.MovedCard(Within(samples, limit), n);
    }
  }

  /** Sums are additive, and a single number is its own sum. */
  lemma {:induction false} SumAdds(a: seq<nat>, b: seq<nat>)
    ensures Sum(a + b) == Sum(a) + Sum(b) && forall x :: Sum([x]) == x
  {
    if b == [] {
      assert a + b == a;
      assert forall x: nat :: [x][..0] == [];
    } else {
      SumAdds(a, b[..|b| - 1]);
      assert (a + b)[..|a + b| - 1] == a + b[..|b| - 1];
    }
  }

  /** The bound covers at least p percent of the samples. */
  predicate Covers(samples: seq<nat>, p: nat, limit: int) {
    p * |samples| <= 100 * AtMost(samples, limit)
  }

  /** The smallest bound that covers p percent, or the rounded maximum if none does. */
  ghost predicate IsPercentile(samples: seq<nat>, p: nat, r: int) {
    || (exists i :: 0 <= i < |BOUNDS| && r == BOUNDS[i] && Covers(samples, p, BOUNDS[i])
                    && forall k :: 0 <= k < i ==> !Covers(samples, p, BOUNDS[k]))
    || (r == RoundMs(Max(samples)) && forall k :: 0 <= k < |BOUNDS| ==> !Covers(samples, p, BOUNDS[k]))
  }

  /** p percent of the samples are at most this many milliseconds. */
  lemma CoversExactly(samples: seq<nat>, p: nat, limit: int)
    ensures Covers(samples, p, limit) <==>
            p * |samples| <= 100 * |set i: nat | i < |samples| && samples[i] <= 1000 * limit|
  {
    AtMostIsNumber(samples, limit);
    assert (set i: nat | i < |samples| && samples[i] <= 1000 * limit) == Within(samples, limit);
  }

  /** The milliseconds a percentile is reported in. */
  predicate IsBound(b: int) {
    || b == 1 || b == 2 || b == 3 || b == 5 || b == 8 || b == 13 || b == 21 || b == 34 || b == 55 || b == 89
    || b == 144 || b == 233 || b == 377 || b == 610 || b == 1000 || b == 1600 || b == 2600 || b == 4200 || b == 6800
    || b == 10000 || b == 16000 || b == 26000 || b == 42000 || b == 60000
  }

  lemma BoundIsListed(b: int) returns (k: nat)
    requires IsBound(b)
    ensures k < |BOUNDS| && BOUNDS[k] == b
  {
    assert b in BOUNDS;
    k :| k < |BOUNDS| && BOUNDS[k] == b;
  }

  lemma ListedIsBound(k: nat)
    requires k < |BOUNDS|
    ensures IsBound(BOUNDS[k])
  {
  }

  /** A reported percentile is the least bound that covers its share, or the rounded
      maximum if none does. */
  lemma PercentileIsLeast(samples: seq<nat>, p: nat, r: int)
    requires IsPercentile(samples, p, r)
    ensures || (IsBound(r) && Covers(samples, p, r) && forall b :: IsBound(b) && b < r ==> !Covers(samples, p, b))
            || (r == RoundMs(Max(samples)) && forall b :: IsBound(b) ==> !Covers(samples, p, b))
  {
    if forall k :: 0 <= k < |BOUNDS| ==> !Covers(samples, p, BOUNDS[k]) {
      forall b | IsBound(b) ensures !Covers(samples, p, b) {
        var k := BoundIsListed(b);
      }
    } else {
      var i :| 0 <= i < |BOUNDS| && r == BOUNDS[i] && Covers(samples, p, BOUNDS[i])
               && forall k :: 0 <= k < i ==> !Covers(samples, p, BOUNDS[k]);
      ListedIsBound(i);
      forall b | IsBound(b) && b < r ensures !Covers(samples, p, b) {
        var k := BoundIsListed(b);
        BoundsOrder(k, i);
      }
    }
  }

  lemma BoundsOrder(k: nat, i: nat)
    requires k < |BOUNDS| && i < |BOUNDS| && BOUNDS[k] < BOUNDS[i]
    ensures k < i
  {
    BoundsIncrease();
  }

  /** One sample of at most a minute: every percentile is the least bound not below it. */
  lemma OneSample(us: nat, p: nat, r: int)
    requires IsPercentile([us], p, r) && 0 < p <= 100 && us <= 60_000_000
    ensures IsBound(r) && us <= 1000 * r && forall b :: IsBound(b) && b < r ==> 1000 * b < us
  {
    PercentileIsLeast([us], p, r);
    forall b ensures Covers([us], p, b) <==> us <= 1000 * b { OneCovers(us, p, b); }
    assert IsBound(60000) && Covers([us], p, 60000);
  }

  lemma OneCovers(us: nat, p: nat, limit: int)
    requires 0 < p <= 100
    ensures Covers([us], p, limit) <==> us <= 1000 * limit
  {
    assert [us][..0] == [];
    assert AtMost([us], limit) == if us <= 1000 * limit then 1 else 0;
  }

  lemma BoundsIncrease()
    ensures forall i, j :: 0 <= i < j < |BOUNDS| ==> BOUNDS[i] < BOUNDS[j]
  {
    var i := 1;
    while i < |BOUNDS|
      invariant 1 <= i <= |BOUNDS|
      invariant forall a, b :: 0 <= a < b < i ==> BOUNDS[a] < BOUNDS[b]
    {
      assert BOUNDS[i - 1] < BOUNDS[i];
      i := i + 1;
    }
  }

  lemma BoundsAtMostDouble(i: nat)
    requires 0 < i < |BOUNDS|
    ensures BOUNDS[i] <= 2 * BOUNDS[i - 1]
  {
    assert forall k :: 0 < k < |BOUNDS| ==> BOUNDS[k] <= 2 * BOUNDS[k - 1] by {
      assert |BOUNDS| == 24;
    }
  }

  lemma {:induction false} AtMostGrows(samples: seq<nat>, a: int, b: int)
    requires a <= b
    ensures AtMost(samples, a) <= AtMost(samples, b)
  {
    if samples != [] { AtMostGrows(samples[..|samples| - 1], a, b); }
  }

  /** A reported percentile inside the buckets is less than twice too high: half of it
      does not cover the share any more. */
  lemma PercentileWithinDouble(samples: seq<nat>, p: nat, r: int)
    requires IsPercentile(samples, p, r) && 1 < r && exists k :: 0 <= k < |BOUNDS| && Covers(samples, p, BOUNDS[k])
    ensures Covers(samples, p, r) && !Covers(samples, p, r / 2)
  {
    var i :| 0 <= i < |BOUNDS| && r == BOUNDS[i] && Covers(samples, p, BOUNDS[i])
             && forall k :: 0 <= k < i ==> !Covers(samples, p, BOUNDS[k]);
    assert 0 < i;
    BoundsAtMostDouble(i);
    AtMostGrows(samples, r / 2, BOUNDS[i - 1]);
  }

  /** A higher percentile is never reported lower. */
  lemma PercentilesOrdered(samples: seq<nat>, p: nat, q: nat, r: int, t: int)
    requires p <= q <= 100 && IsPercentile(samples, p, r) && IsPercentile(samples, q, t)
    ensures r <= t
  {
    BoundsIncrease();
    forall k | 0 <= k < |BOUNDS| && Covers(samples, q, BOUNDS[k]) ensures Covers(samples, p, BOUNDS[k]) {
      Arith.Scale(|samples|, p, q);
    }
    if forall k :: 0 <= k < |BOUNDS| ==> !Covers(samples, q, BOUNDS[k]) {
      if i :| 0 <= i < |BOUNDS| && r == BOUNDS[i] {
        assert !Covers(samples, q, BOUNDS[i]);
        UncoveredIsExceeded(samples, q, BOUNDS[i]);
      }
    }
  }

  lemma UncoveredIsExceeded(samples: seq<nat>, q: nat, limit: int)
    requires !Covers(samples, q, limit) && q <= 100
    ensures limit <= RoundMs(Max(samples))
  {
    AtMostBounded(samples, limit);
    Arith.Scale(|samples|, q, 100);
  }

  function Min(samples: seq<nat>): nat
    requires samples != []
  {
    if |samples| == 1 then samples[0]
    else
      var m := Min(samples[..|samples| - 1]);
      if samples[|samples| - 1] < m then samples[|samples| - 1] else m
  }

  /** The index `sort.SearchFloat64s` finds: the first bound that is not below the sample. */
  method Search(us: nat) returns (i: nat)
    ensures i <= |BOUNDS|
    ensures forall k :: 0 <= k < |BOUNDS| ==> (us <= 1000 * BOUNDS[k] <==> i <= k)
  {
    BoundsIncrease();
    i := 0;
    var j := |BOUNDS|;
    while i < j
      invariant 0 <= i <= j <= |BOUNDS|
      invariant forall k :: 0 <= k < i ==> 1000 * BOUNDS[k] < us
      invariant forall k :: j <= k < |BOUNDS| ==> us <= 1000 * BOUNDS[k]
    {
      var h := (i + j) / 2;
      if 1000 * BOUNDS[h] < us { i := h + 1; } else { j := h; }
    }
  }

  /** The counts up to each bound are the samples at most that bound. */
  ghost predicate CountsFit(counts: seq<nat>, samples: seq<nat>) {
    && |counts| == |BOUNDS| + 1
    && Sum(counts) == |samples|
    && (forall k :: 0 <= k < |BOUNDS| ==> Sum(counts[..k + 1]) == AtMost(samples, BOUNDS[k]))
  }

  /** Counting a sample in its bucket keeps every cumulative count right. */
  lemma CountOneMore(counts: seq<nat>, samples: seq<nat>, us: nat, i: nat)
    requires CountsFit(counts, samples) && i <= |BOUNDS|
    requires forall k :: 0 <= k < |BOUNDS| ==> (us <= 1000 * BOUNDS[k] <==> i <= k)
    ensures CountsFit(counts[i := counts[i] + 1], samples + [us])
  {
    var counts' := counts[i := counts[i] + 1];
    var samples' := samples + [us];
    assert samples'[..|samples|] == samples;
    assert counts'[..|counts|] == counts' && counts[..|counts|] == counts;
    SumBumped(counts, i, |counts|);
    forall k | 0 <= k < |BOUNDS| ensures Sum(counts'[..k + 1]) == AtMost(samples', BOUNDS[k]) {
      SumBumped(counts, i, k + 1);
    }
  }

  /** Sum, maximum and minimum with one more sample. */
  lemma SampleOn(samples: seq<nat>, us: nat)
    ensures var all := samples + [us];
            && Sum(all) == Sum(samples) + us && Max(all) == (if us > Max(samples) then us else Max(samples))
            && Min(all) == if samples == [] || us < Min(samples) then us else Min(samples)
  {
    assert (samples + [us])[..|samples|] == samples;
  }

  datatype Snapshot = Snapshot(count: nat, min: nat, max: nat, avg: int, p50: int, p95: int, p99: int)

  class Histogram {
    var counts: array<nat>
    var total: nat
    var sumUs: nat
    var minUs: nat
    var maxUs: nat
    ghost var samples: seq<nat>

    ghost predicate Valid()
      reads this, counts
    {
      && CountsFit(counts[..], samples)
      && total == |samples| && sumUs == Sum(samples)
      && maxUs == Max(samples) && (samples != [] ==> minUs == Min(samples))
    }

    constructor ()
      ensures Valid() && fresh(counts) && samples == []
    {
      counts := new nat[|BOUNDS| + 1](_ => 0);
      total, sumUs, minUs, maxUs, samples := 0, 0, 0, 0, [];
      new;
      ghost var zeros := counts[..];
      forall n | 0 <= n <= |BOUNDS| + 1 ensures Sum(zeros[..n]) == 0 {
        AllZero(zeros, n);
      }
      assert zeros[..|BOUNDS| + 1] == zeros;
    }

    method Observe(us: nat)
      requires Valid()
      modifies this, counts
      ensures Valid() && samples == old(samples) + [us] && counts == old(counts)
    {
      var i := Search(us);
      CountOneMore(counts[..], samples, us, i);
      SampleOn(samples, us);
      ghost var counted := counts[..][i := counts[i] + 1];
      counts[i] := counts[i] + 1;
      assert counts[..] == counted;
      if total == 0 || us < minUs { minUs := us; }
      if us > maxUs { maxUs := us; }
      total := total + 1;
      sumUs := sumUs + us;
      samples := samples + [us];
    }

    /** The loop over the counts, for a share of p percent of the total. */
    method Percentile(p: nat) returns (r: int)
      requires Valid() && 0 < total && 0 < p <= 100
      ensures IsPercentile(samples, p, r)
    {
      var cum := 0;
      ghost var all := counts[..];
      for i := 0 to counts.Length
        invariant cum == Sum(all[..i])
        invariant forall k :: 0 <= k < i && k < |BOUNDS| ==> !Covers(samples, p, BOUNDS[k])
      {
        assert all[..i + 1][..i] == all[..i];
        cum := cum + counts[i];
        if 100 * cum >= p * total {
          if i >= |BOUNDS| { return RoundMs(maxUs); }
          return BOUNDS[i];
        }
        if i == |BOUNDS| {
          assert all[..i + 1] == all;
        }
      }
      return RoundMs(maxUs);
    }

    method TakeSnapshot() returns (s: Snapshot)
      requires Valid()
      ensures total == 0 ==> s == Snapshot(0, 0, 0, 0, 0, 0, 0)
      ensures total > 0 ==> s.count == |samples| && s.min == RoundMs(Min(samples)) && s.max == RoundMs(Max(samples))
      ensures total > 0 ==>
        IsPercentile(samples, 50, s.p50) && IsPercentile(samples, 95, s.p95) && IsPercentile(samples, 99, s.p99)
      ensures total > 0 ==> s.avg == MeanMs(Sum(samples), |samples|)
      ensures s.p50 <= s.p95 <= s.p99 && s.min <= s.avg <= s.max
    {
      if total == 0 { return Snapshot(0, 0, 0, 0, 0, 0, 0); }
      var p50 := Percentile(50);
      var p95 := Percentile(95);
      var p99 := Percentile(99);
      PercentilesOrdered(samples, 50, 95, p50, p95);
      PercentilesOrdered(samples, 95, 99, p95, p99);
      MeanBetween(samples);
      s := Snapshot(total, RoundMs(minUs), RoundMs(maxUs), MeanMs(sumUs, total), p50, p95, p99);
    }
  }

  lemma {:induction false} AllZero(counts: seq<nat>, n: nat)
    requires n <= |counts| && forall i :: 0 <= i < |counts| ==> counts[i] == 0
    ensures Sum(counts[..n]) == 0
    decreases n
  {
    if n > 0 {
      assert counts[..n][..n - 1] == counts[..n - 1];
      AllZero(counts, n - 1);
    }
  }
}

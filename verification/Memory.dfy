/** The rolling memory profiler: samples, their peak and their nearest-rank percentiles. */
module Memory {
  import opened Ordering

  predicate AtMost(a: nat, b: nat) {
    a <= b
  }

  lemma AtMostTotal(s: seq<nat>)
    ensures TotalOn(multiset(s), AtMost)
  {
  }

  function Ceiling(x: real): int {
    -(-x).Floor
  }

  /** `p` percent of `n`. */
  function Share(n: nat, p: real): real {
    n as real * p / 100.0
  }

  /** `ceil(n * p / 100) - 1`, clamped into the samples, for any real percentage; converting to
      an unsigned index takes a negative number to zero. */
  function Rank(n: nat, p: real): (i: nat)
    requires n > 0
    ensures i < n
  {
    var c := Ceiling(Share(n, p));
    var r := if c < 0 then 0 else c;
    var i := if r == 0 then 0 else r - 1;
    if i < n - 1 then i else n - 1
  }

  function Percentile(samples: seq<nat>, baseline: nat, p: real): nat {
    if samples == [] then baseline
    else
      SortPermutes(samples, AtMost);
      Sort(samples, AtMost)[Rank(|samples|, p)]
  }

  function Peak(samples: seq<nat>, baseline: nat): nat {
    if samples == [] then baseline
    else if |samples| == 1 then samples[0]
    else
      var rest := Peak(samples[..|samples| - 1], baseline);
      var last := samples[|samples| - 1];
      if last >= rest then last else rest
  }

  datatype Report = Report(baseline: nat, peak: nat, p50: nat, p99: nat, sampleCount: nat)

  class MemoryProfiler {
    const baseline: nat
    var samples: seq<nat>

    constructor (baseline: nat)
      ensures this.baseline == baseline && samples == []
    {
      this.baseline := baseline;
      samples := [];
    }

    method Record(bytes: nat)
      modifies this
      ensures samples == old(samples) + [bytes]
    {
      samples := samples + [bytes];
    }

    method PeakBytes() returns (peak: nat)
      ensures peak == Peak(samples, baseline)
    {
      peak := baseline;
      for i := 0 to |samples|
        invariant peak == Peak(samples[..i], baseline)
      {
        assert samples[..i + 1][..i] == samples[..i];
        if i == 0 || samples[i] >= peak {
          peak := samples[i];
        }
      }
      assert samples[..|samples|] == samples;
    }

    method PercentileBytes(p: real) returns (bytes: nat)
      ensures bytes == Percentile(samples, baseline, p)
    {
      if samples == [] {
        return baseline;
      }
      var sorted := Sort(samples, AtMost);
      SortPermutes(samples, AtMost);
      return sorted[Rank(|samples|, p)];
    }

    method MakeReport() returns (r: Report)
      ensures r == Report(baseline, Peak(samples, baseline), Percentile(samples, baseline, 50.0),
                          Percentile(samples, baseline, 99.0), |samples|)
    {
      var peak := PeakBytes();
      var p50 := PercentileBytes(50.0);
      var p99 := PercentileBytes(99.0);
      return Report(baseline, peak, p50, p99, |samples|);
    }
  }

  // ---------------------------------------------------------------- meaning

  function CountAtMost(s: seq<nat>, v: nat): nat {
    CountIf(s, (x: nat) => x <= v)
  }

  /** At least `p` percent of the samples are at or below `v`. */
  predicate Covers(s: seq<nat>, v: nat, p: real) {
    100.0 * CountAtMost(s, v) as real >= |s| as real * p
  }

  lemma {:induction false} SortedCount(s: seq<nat>, v: nat, k: nat)
    requires Sorted(s, AtMost) && k <= |s|
    requires forall i :: 0 <= i < k ==> s[i] <= v
    requires forall i :: k <= i < |s| ==> s[i] > v
    ensures CountAtMost(s, v) == k
  {
    var f := (x: nat) => x <= v;
    if s != [] {
      if k == 0 {
        NoneAtMost(s, v);
      } else {
        forall i, j | 0 <= i < j < |s[1..]| ensures AtMost(s[1..][i], s[1..][j]) {
          assert AtMost(s[i + 1], s[j + 1]);
        }
        SortedCount(s[1..], v, k - 1);
      }
    }
  }

  lemma {:induction false} NoneAtMost(s: seq<nat>, v: nat)
    requires forall i :: 0 <= i < |s| ==> s[i] > v
    ensures CountAtMost(s, v) == 0
  {
    if s != [] {
      NoneAtMost(s[1..], v);
    }
  }

  /** In a sorted list, the entries at or below `v` are a prefix; `k` is its length. */
  lemma PrefixAtMost(s: seq<nat>, v: nat) returns (k: nat)
    requires Sorted(s, AtMost)
    ensures k <= |s| && CountAtMost(s, v) == k
    ensures forall i :: 0 <= i < k ==> s[i] <= v
    ensures forall i :: k <= i < |s| ==> s[i] > v
  {
    k := 0;
    while k < |s| && s[k] <= v
      invariant k <= |s| && forall i :: 0 <= i < k ==> s[i] <= v
    {
      k := k + 1;
    }
    forall i | k <= i < |s| ensures s[i] > v {
      assert k < i ==> AtMost(s[k], s[i]);
    }
    SortedCount(s, v, k);
  }

  lemma Scaled(n: real, p: real, q: real)
    requires n >= 0.0 && p <= q
    ensures n * p <= n * q
  {
    assert n * (q - p) >= 0.0;
    assert n * (q - p) == n * q - n * p;
  }

  lemma CeilingBounds(x: real)
    ensures Ceiling(x) as real - 1.0 < x <= Ceiling(x) as real
  {
  }

  lemma ShareBounds(n: nat, p: real)
    requires n > 0 && 0.0 < p <= 100.0
    ensures 0.0 < Share(n, p) <= n as real
    ensures 100.0 * Share(n, p) == n as real * p
  {
    Scaled(n as real, p, 100.0);
    assert n as real * p > 0.0;
  }

  lemma RankBounds(n: nat, p: real)
    requires n > 0 && 0.0 < p <= 100.0
    ensures 100.0 * (Rank(n, p) + 1) as real >= n as real * p
    ensures 100.0 * Rank(n, p) as real < n as real * p
  {
    ShareBounds(n, p);
    CeilingBounds(Share(n, p));
    hide Share, Ceiling;
    assert 1 <= Ceiling(Share(n, p)) <= n;
  }

  /** For every `p` above 0 and up to 100, and any samples: the percentile is a recorded value
      covering `p` percent of the samples, and no smaller value, recorded or not, covers them. */
  lemma PercentileIsNearestRank(samples: seq<nat>, baseline: nat, p: real, w: nat)
    requires samples != [] && 0.0 < p <= 100.0
    ensures Percentile(samples, baseline, p) in samples
    ensures Covers(samples, Percentile(samples, baseline, p), p)
    ensures w < Percentile(samples, baseline, p) ==> !Covers(samples, w, p)
  {
    hide Rank, Sort, Covers, CountAtMost;
    var i := Rank(|samples|, p);
    SortPermutes(samples, AtMost);
    CountsAtIndex(samples, i, w);
    RankBounds(|samples|, p);
    EnoughCovers(samples, Percentile(samples, baseline, p), p, i + 1);
    if w < Percentile(samples, baseline, p) {
      TooFewCover(samples, w, p, i);
    }
  }

  /** More than `i` samples are at or below the one at index `i` of the sorted list, and at
      most `i` are at or below anything smaller. */
  lemma CountsAtIndex(samples: seq<nat>, i: nat, w: nat)
    requires i < |samples|
    ensures |Sort(samples, AtMost)| == |samples|
    ensures var v := Sort(samples, AtMost)[i];
            v in samples && CountAtMost(samples, v) >= i + 1 && (w < v ==> CountAtMost(samples, w) <= i)
  {
    hide Sort, CountAtMost;
    var s := Sort(samples, AtMost);
    AtMostTotal(samples);
    SortPermutes(samples, AtMost);
    SortSorts(samples, AtMost);
    assert s[i] in multiset(samples);
    SortedCounts(samples, s[i]);
    SortedCounts(samples, w);
    var k := PrefixAtMost(s, s[i]);
    var j := PrefixAtMost(s, w);
    assert k > i;
    assert w < s[i] ==> j <= i;
  }

  lemma SortedCounts(samples: seq<nat>, v: nat)
    ensures CountAtMost(Sort(samples, AtMost), v) == CountAtMost(samples, v)
  {
    SortPermutes(samples, AtMost);
    CountIfPermutes(samples, Sort(samples, AtMost), (x: nat) => x <= v);
  }

  lemma EnoughCovers(samples: seq<nat>, v: nat, p: real, enough: nat)
    requires CountAtMost(samples, v) >= enough && 100.0 * enough as real >= |samples| as real * p
    ensures Covers(samples, v, p)
  {
  }

  lemma TooFewCover(samples: seq<nat>, v: nat, p: real, most: nat)
    requires CountAtMost(samples, v) <= most && 100.0 * most as real < |samples| as real * p
    ensures !Covers(samples, v, p)
  {
  }

  /** Percentiles do not depend on the recording order. */
  lemma PercentileIgnoresOrder(a: seq<nat>, b: seq<nat>, baseline: nat, p: real)
    requires multiset(a) == multiset(b)
    ensures Percentile(a, baseline, p) == Percentile(b, baseline, p)
  {
    AtMostTotal(a);
    SortOrderFree(a, b, AtMost);
    assert |multiset(a)| == |multiset(b)|;
  }

  lemma CeilingGrows(x: real, y: real)
    requires x <= y
    ensures Ceiling(x) <= Ceiling(y)
  {
  }

  lemma ShareGrows(n: nat, p: real, q: real)
    requires p <= q
    ensures Share(n, p) <= Share(n, q)
  {
    Scaled(n as real, p, q);
  }

  lemma RankMonotone(n: nat, p: real, q: real)
    requires n > 0 && p <= q
    ensures Rank(n, p) <= Rank(n, q)
  {
    hide Share, Ceiling;
    ShareGrows(n, p, q);
    CeilingGrows(Share(n, p), Share(n, q));
  }

  /** Percentiles grow with `p`. */
  lemma PercentileMonotone(samples: seq<nat>, baseline: nat, p: real, q: real)
    requires p <= q
    ensures Percentile(samples, baseline, p) <= Percentile(samples, baseline, q)
  {
    hide Rank, Sort;
    if samples != [] {
      var s, n := Sort(samples, AtMost), |samples|;
      AtMostTotal(samples);
      SortPermutes(samples, AtMost);
      SortSorts(samples, AtMost);
      RankMonotone(n, p, q);
      var i, j := Rank(n, p), Rank(n, q);
      assert i < j ==> AtMost(s[i], s[j]);
    }
  }

  lemma {:induction false} PeakIsGreatest(samples: seq<nat>, baseline: nat)
    requires samples != []
    ensures Peak(samples, baseline) in samples
    ensures forall x :: x in samples ==> x <= Peak(samples, baseline)
  {
    if |samples| > 1 {
      var n := |samples| - 1;
      PeakIsGreatest(samples[..n], baseline);
      assert samples == samples[..n] + [samples[n]];
    }
  }

  lemma OuterShares(n: nat)
    ensures Share(n, 100.0) == n as real && Share(n, 0.0) == 0.0
  {
  }

  lemma CeilingOfWhole(n: nat)
    ensures Ceiling(n as real) == n
  {
  }

  lemma OuterRanks(n: nat, p: real)
    requires n > 0
    ensures p >= 100.0 ==> Rank(n, p) == n - 1
    ensures p <= 0.0 ==> Rank(n, p) == 0
  {
    hide Share, Ceiling;
    OuterShares(n);
    CeilingOfWhole(n);
    CeilingOfWhole(0);
    if p >= 100.0 {
      ShareGrows(n, 100.0, p);
      CeilingGrows(n as real, Share(n, p));
    } else if p <= 0.0 {
      ShareGrows(n, p, 0.0);
      CeilingGrows(Share(n, p), 0.0);
    }
  }

  /** From the 100th percentile on the result is the peak, also when nothing was recorded. */
  lemma TopPercentileIsPeak(samples: seq<nat>, baseline: nat, p: real)
    requires p >= 100.0
    ensures Percentile(samples, baseline, p) == Peak(samples, baseline)
  {
    hide Rank, Sort, Peak;
    if samples != [] {
      var s, n := Sort(samples, AtMost), |samples|;
      AtMostTotal(samples);
      SortPermutes(samples, AtMost);
      SortSorts(samples, AtMost);
      PeakIsGreatest(samples, baseline);
      OuterRanks(n, p);
      assert s[n - 1] in multiset(s);
      assert s[n - 1] in samples && s[n - 1] <= Peak(samples, baseline);
      assert Peak(samples, baseline) in multiset(samples);
      assert Peak(samples, baseline) in s;
      var i :| 0 <= i < n && s[i] == Peak(samples, baseline);
      assert i < n - 1 ==> AtMost(s[i], s[n - 1]);
    } else {
      assert Peak(samples, baseline) == baseline by { PeakOfNothing(baseline); }
    }
  }

  /** At and below zero percent the result is the least recorded value. */
  lemma BottomPercentileIsLeast(samples: seq<nat>, baseline: nat, p: real)
    requires samples != [] && p <= 0.0
    ensures Percentile(samples, baseline, p) in samples
    ensures forall x :: x in samples ==> Percentile(samples, baseline, p) <= x
  {
    hide Rank, Sort;
    var s := Sort(samples, AtMost);
    AtMostTotal(samples);
    SortPermutes(samples, AtMost);
    SortSorts(samples, AtMost);
    OuterRanks(|samples|, p);
    assert s[0] in multiset(s);
    forall x | x in samples
      ensures s[0] <= x
    {
      assert x in multiset(s);
      var i :| 0 <= i < |s| && s[i] == x;
      assert i > 0 ==> AtMost(s[0], s[i]);
    }
  }

  lemma PeakOfNothing(baseline: nat)
    ensures Peak([], baseline) == baseline
  {
  }
}

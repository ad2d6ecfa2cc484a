/** Energy counters that wrap: one power domain read repeatedly. */
module Power {
  import opened Machine

  function SaturatingAdd(a: U64, b: U64): U64 {
    Saturate64(a + b)
  }

  /** `compute_delta_uj`. Under a wrap, a reading above the limit makes the unchecked
      subtraction wrap around in 64 bits. */
  function DeltaUj(before: U64, after: U64, maxUj: U64): U64 {
    if after >= before then after - before
    else SaturatingAdd(SaturatingAdd(Wrap64(maxUj + TWO_64 - before), after), 1)
  }

  /** What a counter with limit `maxUj` shows after `total` microjoules. */
  function Reading(total: nat, maxUj: U64): U64 {
    total % (maxUj + 1)
  }

  /** If the true total advances by at most `maxUj` between two samples, the delta is the true
      advance, across a wrap or not, and neither saturating addition saturates. */
  lemma DeltaIsAdvance(total: nat, advance: nat, maxUj: U64)
    requires advance <= maxUj
    ensures DeltaUj(Reading(total, maxUj), Reading(total + advance, maxUj), maxUj) == advance
  {
    var m := maxUj + 1;
    var before := total % m;
    ReadingAdvances(total, advance, m);
    var after := Reading(total + advance, maxUj);
    assert after == if before + advance < m then before + advance else before + advance - m;
  }

  lemma ReadingAdvances(total: nat, advance: nat, m: nat)
    requires advance < m
    ensures var before := total % m;
            (total + advance) % m == if before + advance < m then before + advance else before + advance - m
  {
    var q, before := total / m, total % m;
    assert total == q * m + before;
    if before + advance < m {
      QuotientUnique(q, m, before + advance);
    } else {
      assert total + advance == (q + 1) * m + (before + advance - m) by {
        assert (q + 1) * m == q * m + m;
      }
      QuotientUnique(q + 1, m, before + advance - m);
    }
  }

  /** The delta determines the advance only up to the modulus: it equals the true advance
      exactly when that is at most the limit. */
  lemma DeltaIsAdvanceIff(total: nat, advance: nat, maxUj: U64)
    ensures DeltaUj(Reading(total, maxUj), Reading(total + advance, maxUj), maxUj) == advance <==> advance <= maxUj
  {
    if advance <= maxUj {
      DeltaIsAdvance(total, advance, maxUj);
    } else {
      DeltaBounded(Reading(total, maxUj), Reading(total + advance, maxUj), maxUj);
    }
  }

  lemma DeltaBounded(before: U64, after: U64, maxUj: U64)
    requires before <= maxUj && after <= maxUj
    ensures DeltaUj(before, after, maxUj) <= maxUj
  {
  }

  // ---------------------------------------------------------------- whole runs

  function Sum(s: seq<nat>): nat {
    if s == [] then 0 else Sum(s[..|s| - 1]) + s[|s| - 1]
  }

  /** The readings of a run that starts at `total` and advances by each of `advances`. */
  function Readings(total: nat, advances: seq<nat>, maxUj: U64): (r: seq<U64>)
    ensures |r| == |advances| + 1
  {
    seq(|advances| + 1, i requires 0 <= i <= |advances| => Reading(total + Sum(advances[..i]), maxUj))
  }

  function SumOfDeltas(readings: seq<U64>, maxUj: U64): nat {
    if |readings| < 2 then 0
    else
      var n := |readings| - 1;
      SumOfDeltas(readings[..n], maxUj) + DeltaUj(readings[n - 1], readings[n], maxUj)
  }

  lemma {:induction false} ReadingsShrink(total: nat, advances: seq<nat>, maxUj: U64)
    requires advances != []
    ensures var n := |advances| - 1;
            var readings := Readings(total, advances, maxUj);
            && readings[..n + 1] == Readings(total, advances[..n], maxUj)
            && readings[n] == Reading(total + Sum(advances[..n]), maxUj)
            && readings[n + 1] == Reading(total + Sum(advances), maxUj)
  {
    var n := |advances| - 1;
    var readings, shorter := Readings(total, advances, maxUj), Readings(total, advances[..n], maxUj);
    assert advances[..n + 1] == advances;
    forall i | 0 <= i <= n
      ensures readings[i] == shorter[i]
    {
      assert advances[..n][..i] == advances[..i];
    }
    assert readings[..n + 1] == shorter;
  }

  /** Energy is conserved over any run: the deltas add up to the total advance, however often
      the counter wrapped, as long as no single interval exceeds the limit. */
  lemma {:induction false} EnergyConserved(total: nat, advances: seq<nat>, maxUj: U64)
    requires forall a :: a in advances ==> a <= maxUj
    ensures SumOfDeltas(Readings(total, advances, maxUj), maxUj) == Sum(advances)
  {
    hide Reading, Readings, DeltaUj;
    if advances != [] {
      var n := |advances| - 1;
      assert advances[n] in advances && forall a :: a in advances[..n] ==> a in advances;
      EnergyConserved(total, advances[..n], maxUj);
      ReadingsShrink(total, advances, maxUj);
      DeltaIsAdvance(total + Sum(advances[..n]), advances[n], maxUj);
      assert total + Sum(advances[..n]) + advances[n] == total + Sum(advances);
    }
  }

  // ---------------------------------------------------------------- several domains, one limit

  /** `read_energy_uj_impl`, once the counter files are parsed: a saturating sum. */
  method ReadEnergy(counters: seq<U64>) returns (totalUj: U64)
    ensures totalUj == Saturate64(Sum(counters))
  {
    totalUj := 0;
    for i := 0 to |counters|
      invariant totalUj == Saturate64(Sum(counters[..i]))
    {
      assert counters[..i + 1][..i] == counters[..i];
      totalUj := SaturatingAdd(totalUj, counters[i]);
    }
    assert counters[..|counters|] == counters;
  }

  /** What the counters of several domains show after each has used its total. */
  function Counters(totals: seq<nat>, maxUj: U64): (r: seq<U64>)
    ensures |r| == |totals|
  {
    seq(|totals|, i requires 0 <= i < |totals| => Reading(totals[i], maxUj))
  }

  function Advanced(totals: seq<nat>, advances: seq<nat>): (r: seq<nat>)
    requires |totals| == |advances|
    ensures |r| == |totals|
  {
    seq(|totals|, i requires 0 <= i < |totals| => totals[i] + advances[i])
  }

  /** How often one counter wraps while it advances. */
  function CounterWraps(total: nat, advance: nat, maxUj: U64): nat {
    (Reading(total, maxUj) + advance) / (maxUj + 1)
  }

  /** How often the counters wrap, all domains together, between two samples. */
  function Wraps(totals: seq<nat>, advances: seq<nat>, maxUj: U64): nat
    requires |totals| == |advances|
  {
    if totals == [] then 0
    else
      var n := |totals| - 1;
      Wraps(totals[..n], advances[..n], maxUj) + CounterWraps(totals[n], advances[n], maxUj)
  }

  lemma TimesSum(v: nat, w: nat, m: nat)
    ensures (v + w) * m == v * m + w * m
  {
  }

  lemma CountersSnoc(totals: seq<nat>, maxUj: U64)
    requires totals != []
    ensures var n := |totals| - 1;
            Sum(Counters(totals, maxUj)) == Sum(Counters(totals[..n], maxUj)) + Reading(totals[n], maxUj)
  {
    assert Counters(totals, maxUj)[..|totals| - 1] == Counters(totals[..|totals| - 1], maxUj);
  }

  lemma WrapsSnoc(totals: seq<nat>, advances: seq<nat>, maxUj: U64)
    requires |totals| == |advances| && totals != []
    ensures var n := |totals| - 1;
            Wraps(totals, advances, maxUj)
            == Wraps(totals[..n], advances[..n], maxUj) + CounterWraps(totals[n], advances[n], maxUj)
  {
    hide CounterWraps;
  }

  /** Every wrap takes one modulus off the sum of the counters. */
  lemma {:induction false} SumsAfterWraps(totals: seq<nat>, advances: seq<nat>, maxUj: U64)
    requires |totals| == |advances|
    ensures Sum(Counters(Advanced(totals, advances), maxUj)) + Wraps(totals, advances, maxUj) * (maxUj + 1)
         == Sum(Counters(totals, maxUj)) + Sum(advances)
  {
    hide Reading, Counters, CounterWraps;
    if totals == [] {
      assert Advanced(totals, advances) == totals && advances == totals;
    } else {
      var n, m := |totals| - 1, maxUj + 1;
      var init, rest, later := totals[..n], advances[..n], Advanced(totals, advances);
      SumsAfterWraps(init, rest, maxUj);
      WrapsSnoc(totals, advances, maxUj);
      assert later[..n] == Advanced(init, rest);
      CountersSnoc(totals, maxUj);
      CountersSnoc(later, maxUj);
      OneCounter(totals[n], advances[n], maxUj);
      TimesSum(Wraps(init, rest, maxUj), CounterWraps(totals[n], advances[n], maxUj), m);
    }
  }

  lemma OneCounter(total: nat, advance: nat, maxUj: U64)
    ensures Reading(total + advance, maxUj) + CounterWraps(total, advance, maxUj) * (maxUj + 1)
         == Reading(total, maxUj) + advance
  {
    var m := maxUj + 1;
    var shown := total % m + advance;
    Division(total, m);
    Division(shown, m);
    Carried(total / m, total % m, shown / m, shown % m, advance, m);
  }

  lemma Division(x: nat, m: nat)
    requires m > 0
    ensures x == x / m * m + x % m && x % m < m
  {
  }

  lemma Carried(q: nat, r: nat, k: nat, t: nat, advance: nat, m: nat)
    requires t < m && r + advance == k * m + t
    ensures (q * m + r + advance) % m == t
  {
    TimesSum(q, k, m);
    QuotientUnique(q + k, m, t);
  }

  /** The reader adds up any number of domains but keeps a single wrap limit. The delta of two
      sums is the true advance of all domains together exactly when no counter wraps, or one
      does, once, while the sums still look like one counter that wrapped once. */
  lemma DomainsIff(totals: seq<nat>, advances: seq<nat>, maxUj: U64)
    requires |totals| == |advances|
    requires Sum(Counters(totals, maxUj)) + Sum(advances) < TWO_64
    ensures var before, after := Sum(Counters(totals, maxUj)), Sum(Counters(Advanced(totals, advances), maxUj));
            var w, advance := Wraps(totals, advances, maxUj), Sum(advances);
            DeltaUj(Saturate64(before), Saturate64(after), maxUj) == advance <==>
            w == 0 || (w == 1 && advance <= maxUj && before <= maxUj)
  {
    hide Reading, Sum, Wraps, DeltaUj;
    var w, later := Wraps(totals, advances, maxUj), Advanced(totals, advances);
    var before, after := Sum(Counters(totals, maxUj)), Sum(Counters(later, maxUj));
    SumsAfterWraps(totals, advances, maxUj);
    LostToWraps(w, maxUj);
    SumsDelta(before, after, Sum(advances), w, w * (maxUj + 1), maxUj);
  }

  lemma LostToWraps(w: nat, maxUj: U64)
    ensures w == 0 ==> w * (maxUj + 1) == 0
    ensures w == 1 ==> w * (maxUj + 1) == maxUj + 1
    ensures w >= 2 ==> w * (maxUj + 1) >= 2 * (maxUj + 1)
    ensures w * (maxUj + 1) >= 0
  {
    if w >= 2 {
      TimesSum(w - 2, 2, maxUj + 1);
    }
  }

  lemma SumsDelta(before: nat, after: nat, advance: nat, w: nat, lost: nat, maxUj: U64)
    requires after + lost == before + advance < TWO_64
    requires w == 0 ==> lost == 0
    requires w == 1 ==> lost == maxUj + 1
    requires w >= 2 ==> lost >= 2 * (maxUj + 1)
    ensures DeltaUj(before, after, maxUj) == advance <==> w == 0 || (w == 1 && advance <= maxUj && before <= maxUj)
  {
    WrappedDifference(maxUj, before);
    hide Wrap64;
  }

  lemma WrappedDifference(limit: U64, before: U64)
    ensures Wrap64(limit + TWO_64 - before) == if before <= limit then limit - before else limit + TWO_64 - before
  {
  }
}
